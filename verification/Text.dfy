/**
 Text as the word scanner sees it: words and single other characters. A word carries its case-folded
 form and the features the guards look at, so every text under every folding is covered.
 */
module Text {
  datatype Piece =
    | Word(folded: string, length: nat, hasDigit: bool, allCaps: bool, capital: bool)
    | Mark(c: char)
    | Redacted  // the literal marker "[indistinct]"

  type Text = seq<Piece>

  const MARKER_TOKEN := "indistinct"
  const MARKER_LENGTH: nat := 12

  /** Characters Python's str.strip and the regex class \s drop. */
  predicate IsSpace(c: char) {
    var n := c as int;
    || 0x09 <= n <= 0x0D || 0x1C <= n <= 0x20 || n == 0x85 || n == 0xA0 || n == 0x1680
    || 0x2000 <= n <= 0x200A || n == 0x2028 || n == 0x2029 || n == 0x202F || n == 0x205F || n == 0x3000
  }

  lemma SpacesExact(c: char)
    ensures IsSpace(c) <==> c in {
      '\t', '\n', '\U{B}', '\U{C}', '\r', '\U{1C}', '\U{1D}', '\U{1E}', '\U{1F}', ' ', '\U{85}', '\U{A0}', '\U{1680}',
      '\U{2000}', '\U{2001}', '\U{2002}', '\U{2003}', '\U{2004}', '\U{2005}', '\U{2006}', '\U{2007}', '\U{2008}',
      '\U{2009}', '\U{200A}', '\U{2028}', '\U{2029}', '\U{202F}', '\U{205F}', '\U{3000}'}
  {
  }

  predicate IsBlank(p: Piece) {
    p.Mark? && IsSpace(p.c)
  }

  /** `len(text)`. */
  function Length(t: Text): nat {
    if t == [] then 0
    else (match t[0] case Word(_, n, _, _, _) => n case Mark(_) => 1 case Redacted => MARKER_LENGTH) + Length(t[1..])
  }

  function StripLeft(t: Text): Text {
    if t != [] && IsBlank(t[0]) then StripLeft(t[1..]) else t
  }

  function StripRight(t: Text): Text {
    if t != [] && IsBlank(t[|t| - 1]) then StripRight(t[..|t| - 1]) else t
  }

  /** `text.strip()`. */
  function Strip(t: Text): Text {
    StripRight(StripLeft(t))
  }

  /** `tokens(text)`: the case-folded words. */
  function Tokens(t: Text): set<string> {
    set p | p in t && !p.Mark? :: TokenOf(p)
  }

  function TokenOf(p: Piece): string
    requires !p.Mark?
  {
    if p.Word? then p.folded else MARKER_TOKEN
  }

  lemma {:induction false} StripLeftEnds(t: Text)
    ensures StripLeft(t) == [] || !IsBlank(StripLeft(t)[0])
  {
    if t != [] && IsBlank(t[0]) { StripLeftEnds(t[1..]); }
  }

  lemma {:induction false} StripRightEnds(t: Text)
    ensures StripRight(t) <= t
    ensures StripRight(t) == [] || !IsBlank(StripRight(t)[|StripRight(t)| - 1])
  {
    if t != [] && IsBlank(t[|t| - 1]) { StripRightEnds(t[..|t| - 1]); }
  }

  lemma StripKeepsTokens(t: Text)
    ensures Tokens(Strip(t)) == Tokens(t)
  {
    StripLeftKeepsTokens(t);
    StripRightKeepsTokens(StripLeft(t));
  }

  lemma {:induction false} StripLeftKeepsTokens(t: Text)
    ensures Tokens(StripLeft(t)) == Tokens(t)
  {
    if t != [] && IsBlank(t[0]) {
      StripLeftKeepsTokens(t[1..]);
      assert t == [t[0]] + t[1..];
    }
  }

  lemma {:induction false} StripRightKeepsTokens(t: Text)
    ensures Tokens(StripRight(t)) == Tokens(t)
  {
    if t != [] && IsBlank(t[|t| - 1]) {
      StripRightKeepsTokens(t[..|t| - 1]);
      assert t == t[..|t| - 1] + [t[|t| - 1]];
    }
  }

  /** Stripping twice is stripping once, and it costs no word. */
  lemma StripIdempotent(t: Text)
    ensures Strip(Strip(t)) == Strip(t)
    ensures Tokens(Strip(t)) == Tokens(t)
  {
    StripKeepsTokens(t);
    var l := StripLeft(t);
    StripLeftEnds(t);
    StripRightEnds(l);
    var s := Strip(t);
    assert s != [] ==> s[0] == l[0];
    assert StripLeft(s) == s;
  }

  ghost predicate Blank(t: Text) {
    forall i | 0 <= i < |t| :: IsBlank(t[i])
  }

  lemma {:induction false} StripLeftCuts(t: Text) returns (before: Text)
    ensures Blank(before) && t == before + StripLeft(t)
  {
    before := [];
    if t != [] && IsBlank(t[0]) {
      before := StripLeftCuts(t[1..]);
      before := [t[0]] + before;
    }
  }

  lemma {:induction false} StripRightCuts(t: Text) returns (after: Text)
    ensures Blank(after) && t == StripRight(t) + after
  {
    after := [];
    if t != [] && IsBlank(t[|t| - 1]) {
      after := StripRightCuts(t[..|t| - 1]);
      after := after + [t[|t| - 1]];
    }
  }

  /** Stripping cuts blanks off both ends and nothing else, and cuts all of them. */
  lemma StripExact(t: Text) returns (before: Text, after: Text)
    ensures Blank(before) && Blank(after) && t == before + Strip(t) + after
    ensures Strip(t) != [] ==> !IsBlank(Strip(t)[0]) && !IsBlank(Strip(t)[|Strip(t)| - 1])
  {
    before := StripLeftCuts(t);
    after := StripRightCuts(StripLeft(t));
    StripLeftEnds(t);
    StripRightEnds(StripLeft(t));
    assert Strip(t) != [] ==> Strip(t)[0] == StripLeft(t)[0];
  }

  lemma {:induction false} BlankStripsLeft(t: Text)
    requires Blank(t)
    ensures StripLeft(t) == []
  {
    if t != [] { BlankStripsLeft(t[1..]); }
  }

  /** Nothing is left exactly of a blank text. */
  lemma StripEmpties(t: Text)
    ensures Strip(t) == [] <==> Blank(t)
  {
    if Blank(t) {
      BlankStripsLeft(t);
    } else {
      var before, after := StripExact(t);
      if Strip(t) == [] { BlankAppend(t, before, after); }
    }
  }

  lemma BlankAppend(t: Text, before: Text, after: Text)
    requires Blank(before) && Blank(after) && t == before + after
    ensures Blank(t)
  {
    forall i | 0 <= i < |t| ensures IsBlank(t[i]) {
      assert t[i] == if i < |before| then before[i] else after[i - |before|];
    }
  }
}
