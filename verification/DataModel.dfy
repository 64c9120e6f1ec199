/** The data model of a surface: reading and updating a JSON tree through paths.
    Array tokens follow section 4 of RFC 6901, with "-" for the place after the last
    element; a removed array element becomes null and keeps its place. */
module DataModel {
  import opened Options
  import opened Numerals
  import opened JsonPointer

  datatype Json =
    | Null
    | Scalar(value: int)
    | Array(items: seq<Json>)
    | Object(members: map<string, Json>)

  // ---------------------------------------------------------------- array tokens

  datatype Index = At(i: int) | Append | Invalid

  const MAX_INT := 0x7fff_ffff_ffff_ffff

  /** The standard library's Atoi on a 64-bit platform. */
  function Atoi(s: string): Option<int> {
    var signed := s != "" && (s[0] == '+' || s[0] == '-');
    var digits := if signed then s[1..] else s;
    if digits == "" then None else
      match Digits(digits) {
        case None => None
        case Some(n) =>
          var v := if signed && s[0] == '-' then -(n as int) else n as int;
          if -MAX_INT - 1 <= v <= MAX_INT then Some(v) else None
      }
  }

  function ArrayIndex(tok: Token): Index {
    if tok == "-" then Append
    else match Atoi(tok) {
      case None => Invalid
      case Some(i) => At(i)
    }
  }

  /** tok is a decimal numeral of i, with zeros in front and a sign where there may be one. */
  ghost predicate ReadsAs(tok: Token, i: int) {
    || (i >= 0 && IsNumeral(tok, i))
    || (i >= 0 && tok != "" && tok[0] == '+' && IsNumeral(tok[1..], i))
    || (i <= 0 && tok != "" && tok[0] == '-' && IsNumeral(tok[1..], -i))
  }

  lemma NumeralIsNotSigned(tok: Token, n: nat)
    requires IsNumeral(tok, n)
    ensures tok != "" && tok[0] != '-' && tok[0] != '+'
  {
    var z: nat :| tok == Zeros(z) + Decimal(n);
    DecimalIsDigits(n);
    ZerosAreZero(z);
  }

  lemma {:induction false} ZerosAreZero(z: nat)
    ensures |Zeros(z)| == z && forall i :: 0 <= i < z ==> Zeros(z)[i] == '0'
  {
    if z > 0 {
      ZerosAreZero(z - 1);
    }
  }

  /** A token names element i exactly when it is a numeral of i and i is in the range of the
      machine's integers; it appends exactly when it is the append marker; and it is invalid
      otherwise. */
  lemma ArrayIndexIff(tok: Token, i: int)
    ensures ArrayIndex(tok) == At(i) <==> ReadsAs(tok, i) && -MAX_INT - 1 <= i <= MAX_INT
    ensures ArrayIndex(tok) == Append <==> tok == "-"
  {
    var signed := tok != "" && (tok[0] == '+' || tok[0] == '-');
    var digits := if signed then tok[1..] else tok;
    var n: nat := if i < 0 then -i else i;
    if IsNumeral(tok, n) {
      NumeralIsNotSigned(tok, n);
    }
    if digits == "" {
      EmptyIsNoNumeral(n);
    } else {
      DigitsIff(digits, n);
      hide IsNumeral, Digits;
    }
  }

  lemma EmptyIsNoNumeral(n: nat)
    ensures !IsNumeral("", n)
  {
    DecimalIsDigits(n);
  }

  /** So the numeral of i names element i. */
  lemma DecimalIsIndex(i: nat)
    requires i <= MAX_INT
    ensures ArrayIndex(Decimal(i)) == At(i)
  {
    assert Decimal(i) == Zeros(0) + Decimal(i);
    assert IsNumeral(Decimal(i), i);
    ArrayIndexIff(Decimal(i), i);
  }

  // ---------------------------------------------------------------- reading

  /** The child a token leads to. */
  function Child(node: Json, tok: Token): Option<Json> {
    match node
    case Object(m) => if tok in m then Some(m[tok]) else None
    case Array(items) =>
      (match ArrayIndex(tok)
       case At(i) => if 0 <= i < |items| then Some(items[i]) else None
       case _ => None)
    case _ => None
  }

  function Get(node: Json, tokens: seq<Token>): Option<Json> {
    if tokens == [] then Some(node)
    else match Child(node, tokens[0]) {
      case None => None
      case Some(child) => Get(child, tokens[1..])
    }
  }

  method GetData(model: Json, path: string) returns (r: Option<Json>)
    ensures r == Get(model, ParsePointer(path))
  {
    var tokens := ParsePointer(path);
    var cur := model;
    for n := 0 to |tokens|
      invariant Get(model, tokens) == Get(cur, tokens[n..])
    {
      var tok := tokens[n];
      assert tokens[n..][1..] == tokens[n + 1..];
      match cur {
        case Object(m) =>
          if tok !in m {
            return None;
          }
          cur := m[tok];
        case Array(items) =>
          var idx := match ArrayIndex(tok) {
            case At(i) => i
            case Append => |items|
            case Invalid => -1
          };
          if idx < 0 || idx >= |items| {
            return None;
          }
          cur := items[idx];
        case _ =>
          return None;
      }
    }
    r := Some(cur);
  }

  // ---------------------------------------------------------------- updating

  /** A null or missing child is replaced by an empty object before descending. */
  function OrEmpty(child: Option<Json>): Json {
    if child == None || child == Some(Null) then Object(map[]) else child.value
  }

  predicate IsContainer(node: Json) {
    node.Object? || node.Array?
  }

  /** Some(value) sets, None removes.  The result is None where the program reports an
      error.  A scalar on the way is replaced by an empty object and the same tokens are
      applied again. */
  function ApplyTokens(node: Json, tokens: seq<Token>, value: Option<Json>): Option<Json>
    requires tokens != []
    decreases |tokens|, if IsContainer(node) then 0 else 1
  {
    var key, last := tokens[0], |tokens| == 1;
    match node
    case Object(m) =>
      if last then
        Some(Object(if value.Some? then m[key := value.value] else m - {key}))
      else
        (match ApplyTokens(OrEmpty(Child(node, key)), tokens[1..], value)
         case None => None
         case Some(updated) => Some(Object(m[key := updated])))
    case Array(items) =>
      (match ArrayIndex(key)
       case Invalid => None
       case Append =>
         if last then Some(if value.Some? then Array(items + [value.value]) else node) else None
       case At(i) =>
         if i < 0 || i >= |items| then None
         else if last then
           Some(Array(items[i := if value.Some? then value.value else Null]))
         else
           match ApplyTokens(OrEmpty(Some(items[i])), tokens[1..], value)
           case None => None
           case Some(updated) => Some(Array(items[i := updated])))
    case _ => ApplyTokens(Object(map[]), tokens, value)
  }

  function ApplyUpdate(model: Json, path: string, value: Option<Json>): Option<Json> {
    var tokens := ParsePointer(path);
    if tokens == [] then
      Some(if value.Some? then value.value else Null)
    else
      ApplyTokens(if model == Null then Object(map[]) else model, tokens, value)
  }

  // ---------------------------------------------------------------- where an update acts

  /** The container the last token is applied to. */
  function Target(node: Json, tokens: seq<Token>): Json
    requires tokens != []
    decreases |tokens|
  {
    var container := if IsContainer(node) then node else Object(map[]);
    if |tokens| == 1 then container
    else Target(OrEmpty(Child(container, tokens[0])), tokens[1..])
  }

  /** The update adds an element at the end of an array. */
  predicate Appends(node: Json, tokens: seq<Token>)
    requires tokens != []
  {
    Target(node, tokens).Array? && tokens[|tokens| - 1] == "-"
  }

  /** The place a token names among n elements. */
  function Place(tok: Token, n: nat): Option<int> {
    match ArrayIndex(tok)
    case At(i) => Some(i)
    case Append => Some(n)
    case Invalid => None
  }

  /** p and q part ways: at some container on their common way they name different keys
      or different places. */
  predicate Diverge(node: Json, p: seq<Token>, q: seq<Token>)
    decreases |p|
  {
    && p != [] && q != []
    && var container := if IsContainer(node) then node else Object(map[]);
       if (if container.Array? then Place(p[0], |container.items|) != Place(q[0], |container.items|) else p[0] != q[0])
       then true
       else Diverge(OrEmpty(Child(container, p[0])), p[1..], q[1..])
  }

  // ---------------------------------------------------------------- lens laws

  /** Setting a path and reading it back gives the value, unless the update appended: the
      append marker never reads back. */
  lemma {:induction false} GetAfterSet(node: Json, tokens: seq<Token>, v: Json)
    requires tokens != [] && ApplyTokens(node, tokens, Some(v)).Some?
    ensures Get(ApplyTokens(node, tokens, Some(v)).value, tokens) == if Appends(node, tokens) then None else Some(v)
    decreases |tokens|
  {
    var container := if IsContainer(node) then node else Object(map[]);
    var updated := ApplyTokens(container, tokens, Some(v));
    assert updated == ApplyTokens(node, tokens, Some(v));
    if |tokens| == 1 {
      assert tokens[1..] == [];
      assert Get(updated.value, tokens) == match Child(updated.value, tokens[0]) { case None => None case Some(c) => Get(c, []) };
    } else {
      var child := OrEmpty(Child(container, tokens[0]));
      GetAfterSet(child, tokens[1..], v);
      assert Child(updated.value, tokens[0]) == ApplyTokens(child, tokens[1..], Some(v));
    }
  }

  /** The numeral of i leads to element i of an array, for reading and for writing. */
  lemma ElementByNumeral(items: seq<Json>, i: nat, v: Json)
    requires i < |items| && i <= MAX_INT
    ensures Get(Array(items), [Decimal(i)]) == Some(items[i])
    ensures ApplyTokens(Array(items), [Decimal(i)], Some(v)) == Some(Array(items[i := v]))
    ensures ApplyTokens(Array(items), [Decimal(i)], None) == Some(Array(items[i := Null]))
  {
    DecimalIsIndex(i);
    hide Decimal;
    assert [Decimal(i)][1..] == [];
  }

  /** The same, path by path, the root path included. */
  lemma {:induction false} GetAfterUpdate(model: Json, path: string, v: Json)
    requires ApplyUpdate(model, path, Some(v)).Some?
    ensures var tokens := ParsePointer(path);
            Get(ApplyUpdate(model, path, Some(v)).value, tokens)
            == if tokens != [] && Appends(model, tokens) then None else Some(v)
  {
    var tokens := ParsePointer(path);
    if tokens != [] {
      GetAfterSet(model, tokens, v);
    }
  }

  /** After a removal an object has no such key, and an array has a null in that place. */
  lemma {:induction false} GetAfterRemove(node: Json, tokens: seq<Token>)
    requires tokens != [] && ApplyTokens(node, tokens, None).Some?
    ensures Get(ApplyTokens(node, tokens, None).value, tokens)
         == if Target(node, tokens).Array? && !Appends(node, tokens) then Some(Null) else None
    decreases |tokens|
  {
    var container := if IsContainer(node) then node else Object(map[]);
    var updated := ApplyTokens(container, tokens, None);
    assert updated == ApplyTokens(node, tokens, None);
    if |tokens| == 1 {
      assert tokens[1..] == [];
      assert Get(updated.value, tokens) == match Child(updated.value, tokens[0]) { case None => None case Some(c) => Get(c, []) };
    } else {
      var child := OrEmpty(Child(container, tokens[0]));
      GetAfterRemove(child, tokens[1..]);
      assert Child(updated.value, tokens[0]) == ApplyTokens(child, tokens[1..], None);
    }
  }

  /** The same, path by path: the removed root is null. */
  lemma {:induction false} GetAfterRemoval(model: Json, path: string)
    requires ApplyUpdate(model, path, None).Some?
    ensures var tokens := ParsePointer(path);
      Get(ApplyUpdate(model, path, None).value, tokens)
      == if tokens == [] || (Target(model, tokens).Array? && !Appends(model, tokens)) then Some(Null) else None
  {
    var tokens := ParsePointer(path);
    if tokens != [] {
      GetAfterRemove(if model == Null then Object(map[]) else model, tokens);
    }
  }

  /** What the container at the end of the path becomes: an array keeps its length, but
      for an append, which adds the value at the end. */
  lemma {:induction false} TargetAfterUpdate(node: Json, tokens: seq<Token>, value: Option<Json>)
    requires tokens != [] && ApplyTokens(node, tokens, value).Some? && Target(node, tokens).Array?
    ensures var before, after := Target(node, tokens), Get(ApplyTokens(node, tokens, value).value, tokens[..|tokens| - 1]);
            && after.Some? && after.value.Array?
            && (if Appends(node, tokens) && value.Some? then after.value.items == before.items + [value.value]
                else |after.value.items| == |before.items|)
    decreases |tokens|
  {
    var container := if IsContainer(node) then node else Object(map[]);
    var updated := ApplyTokens(container, tokens, value);
    assert updated == ApplyTokens(node, tokens, value);
    if |tokens| > 1 {
      var child := OrEmpty(Child(container, tokens[0]));
      TargetAfterUpdate(child, tokens[1..], value);
      assert Child(updated.value, tokens[0]) == ApplyTokens(child, tokens[1..], value);
      assert tokens[..|tokens| - 1][1..] == tokens[1..][..|tokens| - 2];
    }
  }

  /** An update leaves every path that diverges from its own as it was. */
  lemma {:induction false} OthersUnchanged(node: Json, p: seq<Token>, q: seq<Token>, value: Option<Json>)
    requires Diverge(node, p, q) && ApplyTokens(node, p, value).Some?
    ensures Get(ApplyTokens(node, p, value).value, q) == Get(node, q)
    decreases |p|
  {
    var container := if IsContainer(node) then node else Object(map[]);
    var updated := ApplyTokens(container, p, value);
    assert updated == ApplyTokens(node, p, value);
    assert Get(container, q) == Get(node, q);
    if if container.Array? then Place(p[0], |container.items|) != Place(q[0], |container.items|) else p[0] != q[0] {
      assert Child(updated.value, q[0]) == Child(container, q[0]);
    } else {
      var was := Child(container, p[0]);
      assert |p| > 1;
      assert Child(updated.value, q[0]) == Child(updated.value, p[0]) && Child(container, q[0]) == was;
      assert Child(updated.value, p[0]) == ApplyTokens(OrEmpty(was), p[1..], value);
      OthersUnchanged(OrEmpty(was), p[1..], q[1..], value);
      assert q[1..] != [];
      if was != None {
        assert Get(was.value, q[1..]) == Get(OrEmpty(was), q[1..]);
      } else {
        assert Get(OrEmpty(was), q[1..]) == None;
      }
    }
  }

  /** Writing back what is there changes nothing. */
  lemma {:induction false} SetWhatIsThere(node: Json, tokens: seq<Token>, v: Json)
    requires tokens != [] && Get(node, tokens) == Some(v)
    ensures ApplyTokens(node, tokens, Some(v)) == Some(node)
    decreases |tokens|
  {
    var child := Child(node, tokens[0]);
    if |tokens| == 1 {
      assert tokens[1..] == [] && Get(child.value, tokens[1..]) == child;
    } else {
      assert Child(child.value, tokens[1..][0]).Some?;
      SetWhatIsThere(child.value, tokens[1..], v);
    }
    match node {
      case Object(m) => assert m[tokens[0] := child.value] == m;
      case Array(items) =>
        var i := ArrayIndex(tokens[0]).i;
        assert items[i := items[i]] == items;
    }
  }

  /** The second of two updates of one path wins. */
  lemma {:induction false} LastSetWins(node: Json, tokens: seq<Token>, v: Json, w: Option<Json>)
    requires tokens != [] && ApplyTokens(node, tokens, Some(v)).Some? && !Appends(node, tokens)
    ensures ApplyTokens(ApplyTokens(node, tokens, Some(v)).value, tokens, w) == ApplyTokens(node, tokens, w)
    decreases |tokens|
  {
    var container := if IsContainer(node) then node else Object(map[]);
    var first := ApplyTokens(container, tokens, Some(v));
    assert first == ApplyTokens(node, tokens, Some(v));
    if |tokens| == 1 {
      UpdatesOverwrite(container, tokens[0], v, if w.Some? then w.value else Null);
    } else {
      var child := OrEmpty(Child(container, tokens[0]));
      LastSetWins(child, tokens[1..], v, w);
      UpdateIsContainer(child, tokens[1..], Some(v));
      assert Child(first.value, tokens[0]) == ApplyTokens(child, tokens[1..], Some(v));
      var second := ApplyTokens(child, tokens[1..], w);
      if second.Some? {
        UpdatesOverwrite(container, tokens[0], Child(first.value, tokens[0]).value, second.value);
      }
    }
  }

  lemma UpdatesOverwrite(container: Json, tok: Token, x: Json, y: Json)
    ensures container.Object? ==>
              && container.members[tok := x][tok := y] == container.members[tok := y]
              && container.members[tok := x] - {tok} == container.members - {tok}
    ensures container.Array? && ArrayIndex(tok).At? && 0 <= ArrayIndex(tok).i < |container.items| ==>
              var i := ArrayIndex(tok).i;
              container.items[i := x][i := y] == container.items[i := y]
  {
  }

  lemma UpdateIsContainer(node: Json, tokens: seq<Token>, value: Option<Json>)
    requires tokens != [] && ApplyTokens(node, tokens, value).Some?
    ensures IsContainer(ApplyTokens(node, tokens, value).value)
  {
  }

  /** Removing what is not there leaves the tree alone exactly when the container it would be
      in is there; otherwise the objects on the way are built, scalars giving way to them. */
  lemma {:induction false} RemovalOfNothingIff(node: Json, tokens: seq<Token>)
    requires tokens != [] && ApplyTokens(node, tokens, None).Some? && Get(node, tokens) == None
    ensures ApplyTokens(node, tokens, None).value == node
      <==> Get(node, tokens[..|tokens| - 1]).Some? && IsContainer(Get(node, tokens[..|tokens| - 1]).value)
    decreases |tokens|
  {
    UpdateIsContainer(node, tokens, None);
    if |tokens| == 1 {
      assert tokens[..0] == [] && tokens[1..] == [];
      if node.Object? {
        assert node.members - {tokens[0]} == node.members;
      }
    } else {
      assert tokens[..|tokens| - 1][1..] == tokens[1..][..|tokens| - 2];
      var child := Child(node, tokens[0]);
      if IsContainer(node) && child.Some? {
        if child.value != Null {
          RemovalOfNothingIff(child.value, tokens[1..]);
        } else {
          UpdateIsContainer(Object(map[]), tokens[1..], None);
        }
        OnlyChildChanges(node, tokens[0], child.value, ApplyTokens(OrEmpty(child), tokens[1..], None));
      }
    }
  }

  /** Putting a child back in its place changes the container exactly when it changed. */
  lemma OnlyChildChanges(node: Json, tok: Token, child: Json, updated: Option<Json>)
    requires Child(node, tok) == Some(child) && updated.Some?
    ensures node.Object? ==> (node.members[tok := updated.value] == node.members <==> updated.value == child)
    ensures node.Array? ==>
      var i := ArrayIndex(tok).i;
      (node.items[i := updated.value] == node.items <==> updated.value == child)
  {
    if node.Object? {
      assert node.members[tok := child] == node.members;
      assert node.members[tok := updated.value][tok] == updated.value;
    } else {
      var i := ArrayIndex(tok).i;
      assert node.items[i := child] == node.items;
      assert node.items[i := updated.value][i] == updated.value;
    }
  }

  /** A removal that builds an object, and one that replaces a scalar by one. */
  lemma RemovalMayCreate(v: int)
    ensures ApplyTokens(Object(map[]), ["a", "b"], None) == Some(Object(map["a" := Object(map[])]))
    ensures ApplyTokens(Object(map["a" := Scalar(v)]), ["a", "b"], None) == Some(Object(map["a" := Object(map[])]))
  {
    assert ["a", "b"][1..] == ["b"];
    var empty: map<string, Json> := map[];
    assert empty - {"b"} == empty;
    assert ApplyTokens(Object(empty), ["b"], None) == Some(Object(empty));
    assert ApplyTokens(Scalar(v), ["b"], None) == Some(Object(empty));
    assert map["a" := Scalar(v)]["a" := Object(empty)] == map["a" := Object(empty)];
  }

  /** An update fails exactly when an array on its way, before or at the end, is given a
      token that names none of its elements (at the end, the append marker is fine). */
  lemma {:induction false} FailsOnlyInArrays(node: Json, tokens: seq<Token>, value: Option<Json>)
    requires tokens != []
    ensures ApplyTokens(node, tokens, value) == None <==>
            exists k :: 0 <= k < |tokens| && MissesArray(Target(node, tokens[..k + 1]), tokens[k], k == |tokens| - 1)
    decreases |tokens|
  {
    var container := if IsContainer(node) then node else Object(map[]);
    assert Target(node, tokens[..1]) == container;
    assert ApplyTokens(container, tokens, value) == ApplyTokens(node, tokens, value);
    if |tokens| > 1 {
      var child := OrEmpty(Child(container, tokens[0]));
      FailsOnlyInArrays(child, tokens[1..], value);
      forall k | 0 < k < |tokens|
        ensures Target(node, tokens[..k + 1]) == Target(child, tokens[1..][..k])
      {
        assert tokens[..k + 1][1..] == tokens[1..][..k];
      }
    }
  }

  predicate MissesArray(container: Json, tok: Token, last: bool) {
    && container.Array?
    && match ArrayIndex(tok)
       case At(i) => i < 0 || i >= |container.items|
       case Append => !last
       case Invalid => true
  }
}
