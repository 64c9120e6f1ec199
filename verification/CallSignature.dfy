/** The signature of a batch of tool calls, by which a repeated batch is recognised. */
module CallSignature {

  datatype Call = Call(name: string, arguments: string)

  predicate AtMost(a: string, b: string) {
    a == [] || (b != [] && (a[0] < b[0] || (a[0] == b[0] && AtMost(a[1..], b[1..]))))
  }

  function InsertString(x: string, s: seq<string>): seq<string> {
    if s == [] || AtMost(x, s[0]) then [x] + s else [s[0]] + InsertString(x, s[1..])
  }

  function CallText(c: Call): string {
    c.name + ":" + c.arguments
  }

  /** The texts of the calls, sorted. */
  function SortedTexts(calls: seq<Call>): seq<string> {
    if calls == [] then [] else InsertString(CallText(calls[0]), SortedTexts(calls[1..]))
  }

  function Join(parts: seq<string>): string {
    if parts == [] then "" else if |parts| == 1 then parts[0] else parts[0] + "|" + Join(parts[1..])
  }

  function ToolCallSignature(calls: seq<Call>): string {
    Join(SortedTexts(calls))
  }

  lemma {:induction false} AtMostIsTotal(a: string, b: string)
    ensures AtMost(a, b) || AtMost(b, a)
    ensures AtMost(a, b) && AtMost(b, a) ==> a == b
  {
    if a != [] && b != [] {
      AtMostIsTotal(a[1..], b[1..]);
      assert a == [a[0]] + a[1..] && b == [b[0]] + b[1..];
    }
  }

  lemma {:induction false} AtMostIsTransitive(a: string, b: string, c: string)
    requires AtMost(a, b) && AtMost(b, c)
    ensures AtMost(a, c)
  {
    if a != [] && a[0] == b[0] == c[0] {
      AtMostIsTransitive(a[1..], b[1..], c[1..]);
    }
  }

  lemma {:induction false} InsertsCommute(x: string, y: string, s: seq<string>)
    ensures InsertString(x, InsertString(y, s)) == InsertString(y, InsertString(x, s))
  {
    AtMostIsTotal(x, y);
    if s != [] {
      AtMostIsTotal(x, s[0]);
      AtMostIsTotal(y, s[0]);
      InsertsCommute(x, y, s[1..]);
      if AtMost(x, s[0]) && !AtMost(y, s[0]) && AtMost(y, x) {
        AtMostIsTransitive(y, x, s[0]);
      }
      if AtMost(y, s[0]) && !AtMost(x, s[0]) && AtMost(x, y) {
        AtMostIsTransitive(x, y, s[0]);
      }
    }
  }

  /** Sorting the texts of d starts with inserting any of them. */
  lemma {:induction false} AnyFirst(d: seq<Call>, j: nat)
    requires j < |d|
    ensures SortedTexts(d) == InsertString(CallText(d[j]), SortedTexts(Without(d, j)))
  {
    if j == 0 {
      assert Without(d, 0) == d[1..];
    } else {
      AnyFirst(d[1..], j - 1);
      assert Without(d, j)[1..] == Without(d[1..], j - 1);
      InsertsCommute(CallText(d[0]), CallText(d[j]), SortedTexts(Without(d[1..], j - 1)));
    }
  }

  function Without(d: seq<Call>, j: nat): seq<Call>
    requires j < |d|
  {
    d[..j] + d[j + 1..]
  }

  lemma CallsWithout(d: seq<Call>, j: nat)
    requires j < |d|
    ensures multiset(Without(d, j)) == multiset(d) - multiset{d[j]}
  {
    assert d == d[..j] + [d[j]] + d[j + 1..];
  }

  /** The order of the calls in a response does not matter. */
  lemma {:induction false} SignatureIgnoresOrder(c: seq<Call>, d: seq<Call>)
    requires multiset(c) == multiset(d)
    ensures ToolCallSignature(c) == ToolCallSignature(d)
  {
    SameTexts(c, d);
  }

  lemma {:induction false} SameTexts(c: seq<Call>, d: seq<Call>)
    requires multiset(c) == multiset(d)
    ensures SortedTexts(c) == SortedTexts(d)
  {
    assert |c| == |multiset(c)| == |d|;
    if c != [] {
      assert c[0] in multiset(d);
      var j :| 0 <= j < |d| && d[j] == c[0];
      CallsWithout(c, 0);
      CallsWithout(d, j);
      assert Without(c, 0) == c[1..];
      hide Without;
      SameTexts(c[1..], Without(d, j));
      AnyFirst(d, j);
    }
  }

  lemma {:induction false} SignatureIsNotEmpty(calls: seq<Call>)
    requires calls != []
    ensures ToolCallSignature(calls) != ""
  {
    TextsAreNotEmpty(calls);
  }

  lemma {:induction false} TextsAreNotEmpty(calls: seq<Call>)
    ensures |SortedTexts(calls)| == |calls| && forall t :: t in SortedTexts(calls) ==> t != ""
  {
    if calls != [] {
      TextsAreNotEmpty(calls[1..]);
      InsertAdds(CallText(calls[0]), SortedTexts(calls[1..]));
    }
  }

  lemma {:induction false} InsertAdds(x: string, s: seq<string>)
    ensures |InsertString(x, s)| == |s| + 1 && forall t :: t in InsertString(x, s) <==> t == x || t in s
  {
    if s != [] {
      InsertAdds(x, s[1..]);
      assert s == [s[0]] + s[1..];
    }
  }

  /** Single calls are told apart by name and arguments, when no name holds a colon. */
  lemma SingleCallsDiffer(c: Call, d: Call)
    requires ':' !in c.name && ':' !in d.name
    ensures ToolCallSignature([c]) == ToolCallSignature([d]) <==> c == d
  {
    SingleIsOwnText(c);
    SingleIsOwnText(d);
    if CallText(c) == CallText(d) {
      SameTextSameCall(c, d);
    }
  }

  lemma SameTextSameCall(c: Call, d: Call)
    requires ':' !in c.name && ':' !in d.name && CallText(c) == CallText(d)
    ensures c == d
  {
    if |c.name| != |d.name| {
      var long, short := if |c.name| > |d.name| then c else d, if |c.name| > |d.name| then d else c;
      LongerNameDiffers(long, short);
    } else {
      var n := |c.name|;
      assert CallText(c)[..n] == c.name && CallText(c)[n + 1..] == c.arguments;
      assert CallText(d)[..n] == d.name && CallText(d)[n + 1..] == d.arguments;
    }
  }

  lemma LongerNameDiffers(c: Call, d: Call)
    requires ':' !in c.name && |d.name| < |c.name|
    ensures CallText(c) != CallText(d)
  {
    var n := |d.name|;
    assert CallText(d)[n] == ':' && CallText(c)[n] == c.name[n] && c.name[n] in c.name;
  }

  // ---------------------------------------------------------------- whole batches

  /** No text holds the separator of texts, and no name that of name and arguments. */
  predicate Separable(calls: seq<Call>) {
    forall c :: c in calls ==> '|' !in CallText(c) && ':' !in c.name
  }

  predicate IsPart(t: string) {
    t != "" && '|' !in t
  }

  lemma LongerPartDiffers(x: string, u: string, y: string, v: string)
    requires '|' !in x && |y| < |x|
    ensures x + u != y + "|" + v
  {
    assert (y + "|" + v)[|y|] == '|' && (x + u)[|y|] == x[|y|] && x[|y|] in x;
  }

  ghost predicate AreParts(s: seq<string>) {
    forall x :: x in s ==> IsPart(x)
  }

  lemma FirstIsPart(s: seq<string>)
    requires AreParts(s) && s != []
    ensures s[0] != "" && '|' !in s[0] && AreParts(s[1..]) && s == [s[0]] + s[1..]
  {
    assert IsPart(s[0]);
  }

  /** Joined parts can be told apart again. */
  lemma {:induction false} JoinIsInjective(s: seq<string>, t: seq<string>)
    requires AreParts(s) && AreParts(t)
    requires Join(s) == Join(t)
    ensures s == t
  {
    hide *;
    JoinStarts(s);
    JoinStarts(t);
    if s != [] && t != [] {
      FirstIsPart(s);
      FirstIsPart(t);
      var u, v := AfterFirst(s), AfterFirst(t);
      if |t[0]| < |s[0]| {
        SeparatorFollows(t, s[0], u);
      } else if |s[0]| < |t[0]| {
        SeparatorFollows(s, t[0], v);
      } else {
        CutAlike(s[0], u, t[0], v);
        RestIsJoined(s, t);
        if |s| > 1 && |t| > 1 {
          JoinIsInjective(s[1..], t[1..]);
        }
      }
    }
  }

  lemma CutAlike(x: string, u: string, y: string, v: string)
    requires |x| == |y| && x + u == y + v
    ensures x == y && u == v
  {
    assert (x + u)[..|x|] == x && (y + v)[..|x|] == y;
    assert (x + u)[|x|..] == u && (y + v)[|x|..] == v;
  }

  lemma RestIsJoined(s: seq<string>, t: seq<string>)
    requires s != [] && t != [] && AfterFirst(s) == AfterFirst(t)
    ensures (|s| > 1 <==> |t| > 1) && (|s| > 1 && |t| > 1 ==> Join(s[1..]) == Join(t[1..]))
  {
    if |s| > 1 && |t| > 1 {
      hide Join;
      CutAlike("|", Join(s[1..]), "|", Join(t[1..]));
    }
  }

  /** What follows the first part in the joined text. */
  function AfterFirst(s: seq<string>): string
    requires s != []
  {
    if |s| == 1 then "" else "|" + Join(s[1..])
  }

  lemma JoinUnfolds(s: seq<string>)
    ensures Join([]) == ""
    ensures s != [] ==> Join(s) == s[0] + AfterFirst(s)
  {
  }

  lemma JoinStarts(s: seq<string>)
    requires AreParts(s)
    ensures s == [] <==> Join(s) == ""
    ensures s != [] ==> Join(s) == s[0] + AfterFirst(s)
  {
    hide *;
    JoinUnfolds(s);
    if s != [] {
      FirstIsPart(s);
    }
  }

  lemma SeparatorFollows(t: seq<string>, x: string, u: string)
    requires t != [] && '|' !in x && |t[0]| < |x|
    ensures x + u != t[0] + AfterFirst(t)
  {
    if |t| > 1 {
      LongerPartDiffers(x, u, t[0], Join(t[1..]));
      assert t[0] + AfterFirst(t) == t[0] + "|" + Join(t[1..]);
    } else {
      assert |x + u| > |t[0]|;
    }
  }

  /** The texts of the calls, each as often as it occurs. */
  function TextBag(calls: seq<Call>): multiset<string> {
    if calls == [] then multiset{} else multiset{CallText(calls[0])} + TextBag(calls[1..])
  }

  lemma {:induction false} SortingKeepsTexts(calls: seq<Call>)
    ensures multiset(SortedTexts(calls)) == TextBag(calls)
  {
    if calls != [] {
      SortingKeepsTexts(calls[1..]);
      InsertKeepsTexts(CallText(calls[0]), SortedTexts(calls[1..]));
    }
  }

  lemma {:induction false} InsertKeepsTexts(x: string, s: seq<string>)
    ensures multiset(InsertString(x, s)) == multiset{x} + multiset(s)
  {
    if s != [] {
      InsertKeepsTexts(x, s[1..]);
      assert s == [s[0]] + s[1..];
    }
  }

  /** A call occurs as often as its text. */
  lemma {:induction false} TextsCountCalls(calls: seq<Call>, x: Call)
    requires Separable(calls) && ':' !in x.name
    ensures TextBag(calls)[CallText(x)] == multiset(calls)[x]
  {
    if calls != [] {
      var first, rest := calls[0], calls[1..];
      assert calls == [first] + rest;
      assert first in calls && forall c :: c in rest ==> c in calls;
      TextsCountCalls(rest, x);
      if CallText(first) == CallText(x) {
        SameTextSameCall(first, x);
      }
      hide CallText;
    }
  }

  /** Equal texts come from equal calls. */
  lemma BagTellsCalls(c: seq<Call>, d: seq<Call>)
    requires Separable(c) && Separable(d) && TextBag(c) == TextBag(d)
    ensures multiset(c) == multiset(d)
  {
    forall x: Call
      ensures multiset(c)[x] == multiset(d)[x]
    {
      if ':' in x.name {
        assert x !in c && x !in d;
      } else {
        TextsCountCalls(c, x);
        TextsCountCalls(d, x);
      }
    }
  }

  /** Batches with separable calls have one signature exactly when they are the same calls,
      each as often. */
  lemma SignatureTellsApart(c: seq<Call>, d: seq<Call>)
    requires Separable(c) && Separable(d)
    ensures ToolCallSignature(c) == ToolCallSignature(d) <==> multiset(c) == multiset(d)
  {
    if multiset(c) == multiset(d) {
      SignatureIgnoresOrder(c, d);
    }
    if ToolCallSignature(c) == ToolCallSignature(d) {
      TextsAreParts(c);
      TextsAreParts(d);
      JoinIsInjective(SortedTexts(c), SortedTexts(d));
      SortingKeepsTexts(c);
      SortingKeepsTexts(d);
      BagTellsCalls(c, d);
    }
  }

  lemma {:induction false} TextsAreParts(calls: seq<Call>)
    requires Separable(calls)
    ensures forall t :: t in SortedTexts(calls) ==> IsPart(t)
  {
    if calls != [] {
      TextsAreParts(calls[1..]);
      assert calls[0] in calls && CallText(calls[0])[|calls[0].name|] == ':';
      InsertAdds(CallText(calls[0]), SortedTexts(calls[1..]));
    }
  }

  // ---------------------------------------------------------------- one batch against all others

  predicate NamesHoldNoColon(calls: seq<Call>) {
    forall c :: c in calls ==> ':' !in c.name
  }

  /** No other batch is mistaken for this one. */
  ghost predicate ToldFromAll(c: seq<Call>) {
    forall d :: NamesHoldNoColon(d) && ToolCallSignature(d) == ToolCallSignature(c) ==> multiset(d) == multiset(c)
  }

  /** The text also reads as the sorted texts of two calls, split at a separator. */
  ghost predicate ReadsAsTwo(t: string) {
    exists i :: 0 <= i < |t| && SplitsAt(t, i)
  }

  predicate SplitsAt(t: string, i: nat)
    requires i < |t|
  {
    t[i] == '|' && ':' in t[..i] && ':' in t[i + 1..] && AtMost(t[..i], t[i + 1..])
  }

  /** The length of t up to its first colon. */
  function NameLength(t: string): nat {
    if t == "" || t[0] == ':' then 0 else 1 + NameLength(t[1..])
  }

  lemma {:induction false} FirstColon(t: string)
    requires ':' in t
    ensures NameLength(t) < |t| && t[NameLength(t)] == ':' && ':' !in t[..NameLength(t)]
  {
    if t[0] != ':' {
      assert t == [t[0]] + t[1..];
      FirstColon(t[1..]);
      var n := NameLength(t[1..]);
      assert t[..n + 1] == [t[0]] + t[1..][..n];
    }
  }

  /** The call with this text, its name ending at the first colon. */
  function Parsed(t: string): Call
    requires ':' in t
  {
    FirstColon(t);
    Call(t[..NameLength(t)], t[NameLength(t) + 1..])
  }

  lemma ParsedHasText(t: string)
    requires ':' in t
    ensures CallText(Parsed(t)) == t && ':' !in Parsed(t).name
  {
    FirstColon(t);
    var n := NameLength(t);
    assert t == t[..n] + ":" + t[n + 1..];
  }

  lemma PrefixIsAtMost(x: string, rest: string)
    ensures AtMost(x, x + rest)
  {
    if x != [] {
      PrefixIsAtMost(x[1..], rest);
      assert (x + rest)[1..] == x[1..] + rest;
    }
  }

  lemma {:induction false} TextsAreSorted(calls: seq<Call>)
    ensures Sorted(SortedTexts(calls))
  {
    if calls != [] {
      TextsAreSorted(calls[1..]);
      InsertSorts(CallText(calls[0]), SortedTexts(calls[1..]));
    }
  }

  predicate Sorted(s: seq<string>) {
    |s| > 1 ==> AtMost(s[0], s[1]) && Sorted(s[1..])
  }

  lemma {:induction false} InsertSorts(x: string, s: seq<string>)
    requires Sorted(s)
    ensures Sorted(InsertString(x, s))
    ensures InsertString(x, s)[0] == x || (s != [] && InsertString(x, s)[0] == s[0])
  {
    if s == [] {
    } else if AtMost(x, s[0]) {
      assert ([x] + s)[1..] == s;
    } else {
      AtMostIsTotal(x, s[0]);
      InsertSorts(x, s[1..]);
      var rest := InsertString(x, s[1..]);
      assert ([s[0]] + rest)[1..] == rest;
    }
  }

  lemma {:induction false} TextsHoldColon(calls: seq<Call>)
    ensures |SortedTexts(calls)| == |calls| && forall t :: t in SortedTexts(calls) ==> ':' in t
  {
    if calls != [] {
      TextsHoldColon(calls[1..]);
      var t := CallText(calls[0]);
      assert t[|calls[0].name|] == ':';
      InsertAdds(t, SortedTexts(calls[1..]));
    }
  }

  /** Two or more texts, joined, split after the first. */
  lemma JoinedTextsSplit(d: seq<Call>)
    requires |d| > 1
    ensures ReadsAsTwo(ToolCallSignature(d))
  {
    TextsAreSorted(d);
    TextsHoldColon(d);
    var s := SortedTexts(d);
    var t, rest := Join(s), Join(s[1..]);
    var i := |s[0]|;
    assert s[0] in s && s[1] in s;
    assert t == s[0] + "|" + rest;
    assert t[..i] == s[0] && t[i] == '|' && t[i + 1..] == rest;
    var more := if |s| > 2 then "|" + Join(s[2..]) else "";
    assert s[1..][1..] == s[2..];
    assert rest == s[1] + more;
    var k :| 0 <= k < |s[1]| && s[1][k] == ':';
    assert rest[k] == ':';
    PrefixIsAtMost(s[1], more);
    AtMostIsTransitive(s[0], s[1], rest);
    assert SplitsAt(t, i);
  }

  lemma SingleIsOwnText(c: Call)
    ensures ToolCallSignature([c]) == CallText(c)
  {
    assert [c][1..] == [];
    assert SortedTexts([c]) == [CallText(c)];
  }

  lemma PairJoinsTexts(c: Call, d: Call)
    requires AtMost(CallText(c), CallText(d))
    ensures ToolCallSignature([c, d]) == CallText(c) + "|" + CallText(d)
  {
    assert [c, d][1..] == [d];
    assert SortedTexts([d]) == [CallText(d)];
    assert SortedTexts([c, d]) == [CallText(c), CallText(d)];
    hide SortedTexts, CallText, AtMost;
    JoinOfTwo(CallText(c), CallText(d));
  }

  lemma JoinOfTwo(u: string, v: string)
    ensures Join([u, v]) == u + "|" + v
  {
    assert [u, v][1..] == [v];
    assert Join([v]) == v;
  }

  /** Among batches of tools whose names hold no colon, a batch is told from all others
      exactly when it is empty, or a single call whose text does not read as two. */
  lemma ToldFromAllIff(c: seq<Call>)
    requires NamesHoldNoColon(c)
    ensures ToldFromAll(c) <==> c == [] || (|c| == 1 && !ReadsAsTwo(CallText(c[0])))
  {
    if c == [] || (|c| == 1 && !ReadsAsTwo(CallText(c[0]))) {
      forall d | NamesHoldNoColon(d) && ToolCallSignature(d) == ToolCallSignature(c)
        ensures multiset(d) == multiset(c)
      {
        OnlySameCall(c, d);
      }
    } else {
      var d := Impostor(c);
      assert |multiset(d)| == |d| && |multiset(c)| == |c|;
      assert !ToldFromAll(c);
    }
  }

  lemma OnlySameCall(c: seq<Call>, d: seq<Call>)
    requires NamesHoldNoColon(c) && NamesHoldNoColon(d) && ToolCallSignature(d) == ToolCallSignature(c)
    requires c == [] || (|c| == 1 && !ReadsAsTwo(CallText(c[0])))
    ensures d == c
  {
    if d != [] {
      SignatureIsNotEmpty(d);
    }
    if c != [] {
      assert c == [c[0]];
      SingleIsOwnText(c[0]);
      if |d| > 1 {
        JoinedTextsSplit(d);
      } else if |d| == 1 {
        assert d == [d[0]];
        SingleIsOwnText(d[0]);
        assert c[0] in c && d[0] in d;
        SameTextSameCall(c[0], d[0]);
      }
    }
  }

  /** A batch of another size with the same signature: the two calls that the text of one
      reads as, or one call with the whole signature as its text. */
  lemma Impostor(c: seq<Call>) returns (d: seq<Call>)
    requires c != [] && (|c| == 1 ==> ReadsAsTwo(CallText(c[0])))
    ensures NamesHoldNoColon(d) && ToolCallSignature(d) == ToolCallSignature(c) && |d| != |c|
  {
    hide ToolCallSignature, CallText, AtMost, Parsed;
    if |c| == 1 {
      SingleIsOwnText(c[0]);
      assert c == [c[0]];
      d := PairWithText(CallText(c[0]));
    } else {
      JoinedTextsSplit(c);
      ParsedHasText(ToolCallSignature(c));
      d := [Parsed(ToolCallSignature(c))];
      SingleIsOwnText(d[0]);
    }
  }

  lemma PairWithText(t: string) returns (d: seq<Call>)
    requires ReadsAsTwo(t)
    ensures NamesHoldNoColon(d) && ToolCallSignature(d) == t && |d| == 2
  {
    hide ToolCallSignature, CallText, AtMost, Parsed;
    var i :| 0 <= i < |t| && SplitsAt(t, i);
    assert t == t[..i] + "|" + t[i + 1..];
    var u, v := Parsed(t[..i]), Parsed(t[i + 1..]);
    ParsedHasText(t[..i]);
    ParsedHasText(t[i + 1..]);
    d := [u, v];
    PairJoinsTexts(u, v);
  }

  /** Neither condition can go: a separator in the arguments makes one call look like two,
      and a colon in a name makes one call look like another. */
  lemma BatchesMayCollide()
    ensures ToolCallSignature([Call("a", "|b:")]) == ToolCallSignature([Call("a", ""), Call("b", "")])
    ensures ToolCallSignature([Call("a:", "b")]) == ToolCallSignature([Call("a", ":b")])
  {
    var one, first, second := Call("a", "|b:"), Call("a", ""), Call("b", "");
    assert CallText(one) == "a:|b:" && CallText(first) == "a:" && CallText(second) == "b:";
    assert [first, second][1..] == [second];
    assert SortedTexts([second]) == ["b:"];
    assert SortedTexts([first, second]) == ["a:", "b:"];
    assert Join(["a:", "b:"]) == "a:" + "|" + Join(["b:"]);
    assert SortedTexts([one]) == ["a:|b:"];
    assert CallText(Call("a:", "b")) == "a::b" == CallText(Call("a", ":b"));
  }
}
