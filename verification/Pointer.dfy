/** JSON Pointer text (RFC 6901, sections 3 and 4) as the plugin delta writes and reads it. */
module Pointer {
  import opened Wrappers

  /** `s.replace(c, r)` for a one-character pattern. */
  function ReplaceChar(s: string, c: char, r: string): string {
    if s == "" then ""
    else (if s[0] == c then r else [s[0]]) + ReplaceChar(s[1..], c, r)
  }

  /** `s.replace([a, b], [c])`: two-character pattern, scanned left to right. */
  function ReplacePair(s: string, a: char, b: char, c: char): string {
    if s == "" then ""
    else if |s| >= 2 && s[0] == a && s[1] == b then [c] + ReplacePair(s[2..], a, b, c)
    else [s[0]] + ReplacePair(s[1..], a, b, c)
  }

  function Escape(part: string): string {
    ReplaceChar(ReplaceChar(part, '~', "~0"), '/', "~1")
  }

  /** "~1" is decoded before "~0", the order section 4 of RFC 6901 requires. */
  function Unescape(token: string): string {
    ReplacePair(ReplacePair(token, '~', '1', '/'), '~', '0', '~')
  }

  function Join(parts: seq<string>): string {
    if parts == [] then ""
    else if |parts| == 1 then parts[0]
    else parts[0] + "/" + Join(parts[1..])
  }

  /** `s.split("/")`: always at least one part, possibly empty ones. */
  function Split(s: string): (parts: seq<string>)
    ensures |parts| >= 1
  {
    if s == "" then [""]
    else
      var rest := Split(s[1..]);
      if s[0] == '/' then [""] + rest else [[s[0]] + rest[0]] + rest[1..]
  }

  function EscapeAll(path: seq<string>): (r: seq<string>)
    ensures |r| == |path|
    ensures forall i | 0 <= i < |path| :: r[i] == Escape(path[i])
  {
    if path == [] then [] else [Escape(path[0])] + EscapeAll(path[1..])
  }

  function UnescapeAll(tokens: seq<string>): (r: seq<string>)
    ensures |r| == |tokens|
    ensures forall i | 0 <= i < |tokens| :: r[i] == Unescape(tokens[i])
  {
    if tokens == [] then [] else [Unescape(tokens[0])] + UnescapeAll(tokens[1..])
  }

  function Render(path: seq<string>): string {
    "/" + Join(EscapeAll(path))
  }

  /** `_pointer_parts`: the ValueError of a pointer without its leading slash is a Failure. */
  function Parse(pointer: string): (r: Result<seq<string>, string>)
    ensures r.Success? <==> pointer != "" && pointer[0] == '/'
    ensures r.Success? ==> |r.value| >= 1
  {
    if pointer == "" || pointer[0] != '/' then Failure("Invalid JSON Pointer")
    else Success(UnescapeAll(Split(pointer[1..])))
  }

  /** A reference token of RFC 6901: no '/', and '~' only as "~0" or "~1". */
  predicate ValidToken(t: string) {
    if t == "" then true
    else if t[0] == '~' then |t| >= 2 && t[1] in "01" && ValidToken(t[2..])
    else t[0] != '/' && ValidToken(t[1..])
  }

  predicate ValidTail(s: string) {
    forall t | t in Split(s) :: ValidToken(t)
  }

  // ---- one token -----------------------------------------------------------

  /** Escaping in one pass: what the two replacements amount to. */
  function EscapeOnce(s: string): string {
    if s == "" then ""
    else (if s[0] == '~' then "~0" else if s[0] == '/' then "~1" else [s[0]]) + EscapeOnce(s[1..])
  }

  lemma {:induction false} EscapeIsOnePass(s: string)
    ensures Escape(s) == EscapeOnce(s)
  {
    if s != "" {
      EscapeIsOnePass(s[1..]);
      var x := ReplaceChar(s[1..], '~', "~0");
      if s[0] == '~' {
        var y := "~0" + x;
        assert ReplaceChar(s, '~', "~0") == y;
        assert y[1..] == "0" + x && y[1..][1..] == x;
        assert ReplaceChar(y[1..], '/', "~1") == "0" + ReplaceChar(x, '/', "~1");
        assert ReplaceChar(y, '/', "~1") == "~" + ReplaceChar(y[1..], '/', "~1");
        assert "~" + ("0" + ReplaceChar(x, '/', "~1")) == "~0" + ReplaceChar(x, '/', "~1");
      } else {
        var y := [s[0]] + x;
        assert y[1..] == x;
      }
    }
  }

  /** The first decoding pass gives back the text before the second escaping pass. */
  lemma {:induction false} FirstPassInverts(s: string)
    ensures ReplacePair(EscapeOnce(s), '~', '1', '/') == ReplaceChar(s, '~', "~0")
  {
    if s != "" {
      FirstPassInverts(s[1..]);
      var e := EscapeOnce(s[1..]);
      if s[0] == '~' {
        var y := "~0" + e;
        assert y[1..] == "0" + e && y[1..][1..] == e;
        assert ReplacePair(y[1..], '~', '1', '/') == "0" + ReplacePair(e, '~', '1', '/');
        assert ReplacePair(y, '~', '1', '/') == "~" + ("0" + ReplacePair(e, '~', '1', '/'));
      } else if s[0] == '/' {
        var y := "~1" + e;
        assert y[2..] == e;
      } else {
        var y := [s[0]] + e;
        assert y[1..] == e;
      }
    }
  }

  lemma {:induction false} SecondPassInverts(s: string)
    ensures ReplacePair(ReplaceChar(s, '~', "~0"), '~', '0', '~') == s
  {
    if s != "" {
      SecondPassInverts(s[1..]);
      var e := ReplaceChar(s[1..], '~', "~0");
      if s[0] == '~' {
        var y := "~0" + e;
        assert y[2..] == e;
      } else {
        var y := [s[0]] + e;
        assert y[1..] == e;
      }
    }
  }

  lemma TokenRoundTrip(part: string)
    ensures Unescape(Escape(part)) == part
  {
    EscapeIsOnePass(part);
    FirstPassInverts(part);
    SecondPassInverts(part);
  }

  lemma {:induction false} EscapeIsValid(s: string)
    ensures ValidToken(EscapeOnce(s)) && '/' !in EscapeOnce(s)
  {
    if s != "" {
      EscapeIsValid(s[1..]);
      var e := EscapeOnce(s[1..]);
      if s[0] == '~' {
        assert ("~0" + e)[2..] == e;
      } else if s[0] == '/' {
        assert ("~1" + e)[2..] == e;
      } else {
        assert ([s[0]] + e)[1..] == e;
      }
    }
  }

  /** Decoding a valid token in one pass. */
  function UnescapeOnce(t: string): string
    requires ValidToken(t)
  {
    if t == "" then ""
    else if t[0] == '~' then (if t[1] == '0' then "~" else "/") + UnescapeOnce(t[2..])
    else [t[0]] + UnescapeOnce(t[1..])
  }

  lemma {:induction false} EscapeUndoesUnescapeOnce(t: string)
    requires ValidToken(t)
    ensures EscapeOnce(UnescapeOnce(t)) == t
  {
    if t != "" {
      if t[0] == '~' {
        EscapeUndoesUnescapeOnce(t[2..]);
        var u := UnescapeOnce(t[2..]);
        assert ("~" + u)[1..] == u && ("/" + u)[1..] == u;
        assert t == t[..2] + t[2..];
      } else {
        EscapeUndoesUnescapeOnce(t[1..]);
        var u := UnescapeOnce(t[1..]);
        assert ([t[0]] + u)[1..] == u;
        assert t == [t[0]] + t[1..];
      }
    }
  }

  lemma TokenDecodesBack(t: string)
    ensures Escape(Unescape(t)) == t <==> ValidToken(t)
  {
    EscapeIsOnePass(Unescape(t));
    EscapeIsValid(Unescape(t));
    if ValidToken(t) {
      EscapeUndoesUnescapeOnce(t);
      EscapeIsOnePass(UnescapeOnce(t));
      TokenRoundTrip(UnescapeOnce(t));
    }
  }

  // ---- whole pointers ------------------------------------------------------

  lemma {:induction false} SplitOne(s: string)
    requires '/' !in s
    ensures Split(s) == [s]
  {
    if s != "" {
      SplitOne(s[1..]);
      assert s == [s[0]] + s[1..];
    }
  }

  lemma {:induction false} SplitPrefix(s: string, rest: string)
    requires '/' !in s
    ensures Split(s + "/" + rest) == [s] + Split(rest)
  {
    var whole := s + "/" + rest;
    if s == "" {
      assert whole == "/" + rest && whole[1..] == rest;
    } else {
      SplitPrefix(s[1..], rest);
      assert whole[1..] == s[1..] + "/" + rest;
      assert s == [s[0]] + s[1..];
    }
  }

  lemma {:induction false} SplitJoin(parts: seq<string>)
    requires parts != []
    requires forall p | p in parts :: '/' !in p
    ensures Split(Join(parts)) == parts
  {
    if |parts| == 1 {
      SplitOne(parts[0]);
    } else {
      SplitJoin(parts[1..]);
      SplitPrefix(parts[0], Join(parts[1..]));
    }
  }

  lemma {:induction false} JoinSplit(s: string)
    ensures Join(Split(s)) == s
  {
    if s != "" {
      JoinSplit(s[1..]);
      var rest := Split(s[1..]);
      if s[0] == '/' {
        assert ([""] + rest)[1..] == rest;
        assert Join(Split(s)) == "" + "/" + s[1..];
      } else {
        var whole := [[s[0]] + rest[0]] + rest[1..];
        if |rest| == 1 {
          assert whole == [[s[0]] + rest[0]];
        } else {
          assert whole[1..] == rest[1..];
        }
        assert s == [s[0]] + s[1..];
      }
    }
  }

  /** Every path of keys survives the text form: keys with '~', '/' or nothing in them too. */
  lemma RenderParse(path: seq<string>)
    requires path != []
    ensures Parse(Render(path)) == Success(path)
  {
    var escaped := EscapeAll(path);
    forall i | 0 <= i < |path|
      ensures '/' !in escaped[i] && Unescape(escaped[i]) == path[i]
    {
      EscapeIsOnePass(path[i]);
      EscapeIsValid(path[i]);
      TokenRoundTrip(path[i]);
    }
    SplitJoin(escaped);
    assert Render(path)[1..] == Join(escaped);
    assert UnescapeAll(escaped) == path;
  }

  lemma RenderedTokens(path: seq<string>)
    requires path != []
    ensures Split(Render(path)[1..]) == EscapeAll(path)
    ensures forall i | 0 <= i < |path| :: ValidToken(EscapeAll(path)[i])
  {
    forall i | 0 <= i < |path| ensures '/' !in EscapeAll(path)[i] && ValidToken(EscapeAll(path)[i]) {
      EscapeIsOnePass(path[i]);
      EscapeIsValid(path[i]);
    }
    SplitJoin(EscapeAll(path));
    assert Render(path)[1..] == Join(EscapeAll(path));
  }

  /** Decoding loses nothing exactly on the pointers RFC 6901 allows. */
  lemma ParseRender(pointer: string)
    requires pointer != "" && pointer[0] == '/'
    ensures Render(Parse(pointer).value) == pointer <==> ValidTail(pointer[1..])
  {
    var tokens := Split(pointer[1..]);
    var path := UnescapeAll(tokens);
    if ValidTail(pointer[1..]) {
      forall i | 0 <= i < |tokens| ensures EscapeAll(path)[i] == tokens[i] {
        assert tokens[i] in tokens;
        TokenDecodesBack(tokens[i]);
      }
      JoinSplit(pointer[1..]);
      assert EscapeAll(path) == tokens;
      assert pointer == "/" + pointer[1..];
    }
    if Render(path) == pointer {
      RenderedTokens(path);
    }
  }
}
