/** Data-binding paths: reference tokens, their escaping, and the way between a token
    list and a path (section 3 of RFC 6901). */
module JsonPointer {

  type Token = string

  /** Replaces every occurrence of the two characters ~c, read from the left, by r. */
  function Decode(t: string, c: char, r: char): string {
    if t == "" then ""
    else if t[0] == '~' && |t| >= 2 && t[1] == c then [r] + Decode(t[2..], c, r)
    else [t[0]] + Decode(t[1..], c, r)
  }

  /** Replaces every r by the two characters ~c. */
  function Encode(t: string, r: char, c: char): string {
    if t == "" then ""
    else (if t[0] == r then ['~', c] else [t[0]]) + Encode(t[1..], r, c)
  }

  function UnescapeToken(t: string): Token {
    Decode(Decode(t, '1', '/'), '0', '~')
  }

  function EscapeToken(t: Token): string {
    Encode(Encode(t, '~', '0'), '/', '1')
  }

  function Split(s: string): (parts: seq<string>)
    ensures parts != []
  {
    if s == "" then [""]
    else if s[0] == '/' then [""] + Split(s[1..])
    else var rest := Split(s[1..]); [[s[0]] + rest[0]] + rest[1..]
  }

  function UnescapeAll(parts: seq<string>): seq<Token> {
    seq(|parts|, i requires 0 <= i < |parts| => UnescapeToken(parts[i]))
  }

  function ParsePointer(path: string): seq<Token> {
    if path == "" || path == "/" then []
    else UnescapeAll(Split(if path[0] == '/' then path[1..] else path))
  }

  function JoinPointer(tokens: seq<Token>): string {
    if tokens == [] then "/" else JoinAll(tokens)
  }

  function JoinAll(tokens: seq<Token>): string {
    if tokens == [] then "" else "/" + EscapeToken(tokens[0]) + JoinAll(tokens[1..])
  }

  // ---------------------------------------------------------------- escaping is a round trip

  /** Escaping, character by character. */
  function EscapeChar(c: char): string {
    if c == '~' then "~0" else if c == '/' then "~1" else [c]
  }

  lemma {:induction false} EncodeConcat(s: string, t: string, r: char, c: char)
    ensures Encode(s + t, r, c) == Encode(s, r, c) + Encode(t, r, c)
  {
    if s == "" {
      assert s + t == t;
    } else {
      EncodeConcat(s[1..], t, r, c);
      assert (s + t)[1..] == s[1..] + t;
      var first := if s[0] == r then ['~', c] else [s[0]];
      var rest := Encode(s[1..], r, c);
      assert first + (rest + Encode(t, r, c)) == (first + rest) + Encode(t, r, c);
    }
  }

  lemma {:induction false} EscapeStep(t: Token)
    requires t != ""
    ensures EscapeToken(t) == EscapeChar(t[0]) + EscapeToken(t[1..])
  {
    var first := if t[0] == '~' then "~0" else [t[0]];
    EncodeConcat(first, Encode(t[1..], '~', '0'), '/', '1');
    assert Encode(first, '/', '1') == EscapeChar(t[0]) by {
      assert first[1..] == if t[0] == '~' then "0" else "";
      assert t[0] == '~' ==> "0"[1..] == "";
    }
  }

  lemma DecodeOther(x: char, rest: string, c: char, r: char)
    requires x != '~' || rest == "" || rest[0] != c
    ensures Decode([x] + rest, c, r) == [x] + Decode(rest, c, r)
  {
    assert ([x] + rest)[1..] == rest;
  }

  lemma DecodeEscape(rest: string, c: char, r: char)
    ensures Decode(['~', c] + rest, c, r) == [r] + Decode(rest, c, r)
  {
    assert (['~', c] + rest)[2..] == rest;
  }

  lemma {:induction false} DecodeStep(rest: string, c: char, r: char)
    requires c != '~'
    ensures Decode(['~', c] + rest, c, r) == [r] + Decode(rest, c, r)
    ensures forall d :: d != c && d != '~' ==> Decode(['~', d] + rest, c, r) == ['~', d] + Decode(rest, c, r)
    ensures forall d :: d != '~' ==> Decode([d] + rest, c, r) == [d] + Decode(rest, c, r)
  {
    hide Decode;
    DecodeEscape(rest, c, r);
    forall d | d != '~'
      ensures Decode([d] + rest, c, r) == [d] + Decode(rest, c, r)
    {
      DecodeOther(d, rest, c, r);
    }
    forall d | d != c && d != '~'
      ensures Decode(['~', d] + rest, c, r) == ['~', d] + Decode(rest, c, r)
    {
      DecodeOther(d, rest, c, r);
      DecodeOther('~', [d] + rest, c, r);
      assert ['~', d] + rest == ['~'] + ([d] + rest);
      assert ['~'] + ([d] + Decode(rest, c, r)) == ['~', d] + Decode(rest, c, r);
    }
  }

  /** Undoing ~1 turns the escaped text back into the half-escaped one. */
  lemma {:induction false} DecodeSlashes(t: Token)
    ensures Decode(EscapeToken(t), '1', '/') == Encode(t, '~', '0')
  {
    if t != "" {
      DecodeSlashes(t[1..]);
      EscapeStep(t);
      hide Decode, EscapeToken;
      DecodeStep(EscapeToken(t[1..]), '1', '/');
    } else {
      assert EscapeToken(t) == "";
    }
  }

  lemma {:induction false} DecodeTildes(t: Token)
    ensures Decode(Encode(t, '~', '0'), '0', '~') == t
  {
    if t != "" {
      DecodeTildes(t[1..]);
      DecodeStep(Encode(t[1..], '~', '0'), '0', '~');
      assert t == [t[0]] + t[1..];
    }
  }

  lemma {:induction false} UnescapeUndoesEscape(t: Token)
    ensures UnescapeToken(EscapeToken(t)) == t
  {
    DecodeSlashes(t);
    DecodeTildes(t);
  }

  lemma {:induction false} EscapedHasNoSlash(t: Token)
    ensures '/' !in EscapeToken(t)
    ensures EscapeToken(t) == "" <==> t == ""
  {
    if t != "" {
      EscapeStep(t);
      EscapedHasNoSlash(t[1..]);
    }
  }

  /** Escaping writes ~0 for a tilde, ~1 for a slash and every other character as it is. */
  lemma EscapeIs(s: Token, t: Token, c: char)
    ensures EscapeToken("") == ""
    ensures EscapeToken("~") == "~0" && EscapeToken("/") == "~1"
    ensures c != '~' && c != '/' ==> EscapeToken([c]) == [c]
    ensures EscapeToken(s + t) == EscapeToken(s) + EscapeToken(t)
  {
    EncodeConcat(s, t, '~', '0');
    EncodeConcat(Encode(s, '~', '0'), Encode(t, '~', '0'), '/', '1');
    EscapeStep("~");
    EscapeStep("/");
    EscapeStep([c]);
    assert "~"[1..] == "" && "/"[1..] == "" && [c][1..] == "";
    hide Encode;
  }

  /** Unescaping in one pass: ~1 stands for a slash, ~0 for a tilde, and any other character,
      a tilde included, for itself. */
  function ReadToken(t: string): Token {
    if t == "" then ""
    else if |t| >= 2 && t[0] == '~' && t[1] == '1' then "/" + ReadToken(t[2..])
    else if |t| >= 2 && t[0] == '~' && t[1] == '0' then "~" + ReadToken(t[2..])
    else [t[0]] + ReadToken(t[1..])
  }

  lemma DecodeFirst(t: string)
    requires t != ""
    ensures Decode(t, '1', '/') != "" && Decode(t, '1', '/')[0] in [t[0], '/']
  {
  }

  /** The two replacements, one after the other, come to that single pass. */
  lemma {:induction false} UnescapeIsOnePass(t: string)
    ensures UnescapeToken(t) == ReadToken(t)
    decreases |t|
  {
    if t != "" {
      var rest := t[1..];
      assert t == [t[0]] + rest;
      if |t| >= 2 && t[0] == '~' && t[1] == '1' {
        UnescapeIsOnePass(t[2..]);
        DecodeStep(t[2..], '1', '/');
        assert t == ['~', '1'] + t[2..];
        hide Decode;
        DecodeOther('/', Decode(t[2..], '1', '/'), '0', '~');
      } else if |t| >= 2 && t[0] == '~' && t[1] == '0' {
        UnescapeIsOnePass(t[2..]);
        DecodeStep(t[2..], '1', '/');
        assert t == ['~', '0'] + t[2..];
        hide Decode;
        DecodeStep(Decode(t[2..], '1', '/'), '0', '~');
      } else {
        UnescapeIsOnePass(rest);
        if rest != "" {
          DecodeFirst(rest);
        }
        DecodeOther(t[0], rest, '1', '/');
        DecodeOther(t[0], Decode(rest, '1', '/'), '0', '~');
        hide Decode;
      }
    } else {
      assert Decode("", '1', '/') == "";
    }
  }

  // ---------------------------------------------------------------- paths are a round trip

  /** A slash-free text followed by nothing, or by a slash and more. */
  lemma {:induction false} SplitAtSlash(x: string, rest: string)
    requires '/' !in x
    ensures Split(x) == [x]
    ensures Split(x + "/" + rest) == [x] + Split(rest)
  {
    var s := x + "/" + rest;
    if x == "" {
      assert s == "/" + rest && s[1..] == rest;
    } else {
      assert x == [x[0]] + x[1..];
      SplitAtSlash(x[1..], rest);
      assert s[1..] == x[1..] + "/" + rest && s[0] == x[0];
      assert ([x[1..]] + Split(rest))[1..] == Split(rest);
    }
  }

  lemma JoinedTail(tokens: seq<Token>)
    requires tokens != []
    ensures JoinAll(tokens) != "" && JoinAll(tokens)[0] == '/'
    ensures JoinAll(tokens)[1..] == EscapeToken(tokens[0]) + JoinAll(tokens[1..])
  {
    hide EscapeToken;
    var x, rest := EscapeToken(tokens[0]), JoinAll(tokens[1..]);
    assert JoinAll(tokens) == "/" + x + rest;
    hide JoinAll;
  }

  lemma NothingJoined()
    ensures JoinAll([]) == ""
  {
  }

  lemma {:induction false} SplitJoined(tokens: seq<Token>)
    requires tokens != []
    ensures |Split(JoinAll(tokens)[1..])| == |tokens|
    ensures forall i :: 0 <= i < |tokens| ==> Split(JoinAll(tokens)[1..])[i] == EscapeToken(tokens[i])
  {
    hide *;
    var x, rest := EscapeToken(tokens[0]), JoinAll(tokens[1..]);
    EscapedHasNoSlash(tokens[0]);
    JoinedTail(tokens);
    if tokens[1..] == [] {
      NothingJoined();
      assert x + rest == x;
      SplitAtSlash(x, "");
    } else {
      JoinedTail(tokens[1..]);
      SplitJoined(tokens[1..]);
      assert x + rest == x + "/" + rest[1..];
      SplitAtSlash(x, rest[1..]);
    }
  }

  /** Parsing a joined path gives the tokens back, except for the single empty token,
      whose path "/" means the whole model. */
  lemma {:induction false} ParseUndoesJoin(tokens: seq<Token>)
    ensures ParsePointer(JoinPointer(tokens)) == tokens <==> tokens != [""]
  {
    if tokens != [] {
      var path := JoinAll(tokens);
      EscapedHasNoSlash(tokens[0]);
      assert path[0] == '/';
      if tokens == [""] {
        assert JoinAll(tokens[1..]) == "";
        assert path == "/";
      } else {
        assert |path| >= 2 by {
          if tokens[0] == "" {
            assert tokens[1..] != [];
            assert |JoinAll(tokens[1..])| >= 1;
          }
        }
        SplitJoined(tokens);
        var parts := Split(path[1..]);
        forall i | 0 <= i < |tokens|
          ensures UnescapeAll(parts)[i] == tokens[i]
        {
          UnescapeUndoesEscape(tokens[i]);
        }
        assert ParsePointer(path) == UnescapeAll(parts);
      }
    }
  }

  /** The two root paths hold no token, and a leading slash may be left out. */
  lemma LeadingSlashIsOptional(path: string)
    ensures ParsePointer("") == ParsePointer("/") == []
    ensures path != "" && path[0] != '/' ==> ParsePointer("/" + path) == ParsePointer(path)
  {
    assert ("/" + path)[1..] == path;
  }
}
