/**
 * The tree the current tokenizer's tokens are built into: objects, string,
 * number and boolean literals and key-value pairs; the builder that reads the
 * tokens through an iterator; key lookup; and the JSON-like rendering.
 */
module Ast {
  import opened Wrappers
  import opened Text
  import opened Decimal
  import opened Cursor
  import opened LuaTokenizer

  /** LongLiteral holds the token's Double, whatever its name says. */
  datatype LuaElement =
    | LuaObject(content: seq<LuaElement>)
    | BooleanLiteral(b: bool)
    | StringLiteral(s: string)
    | LongLiteral(number: Decimal)
    | KV(key: string, value: LuaElement)

  /** The exceptions the builder throws. */
  datatype AstError =
    | NoMoreTokens             // next() past the last token
    | ExpectObjectStart         // the first token is not `{`
    | NotFinished               // tokens left after the outer object
    | ExpectAssignment          // a key not followed by `=`
    | ExpectLiteral             // `key =` followed by neither a literal nor `{`
    | ExpectKey(got: Token)     // a token that cannot start a child

  predicate IsKeyed(e: LuaElement, key: string) {
    e.KV? && e.key == key
  }

  /** content.find { it is KV && it.key == key }: the index of the first pair with that key. */
  function FindKey(content: seq<LuaElement>, key: string): (r: Option<nat>)
    ensures r.Some? ==> r.value < |content| && IsKeyed(content[r.value], key)
    ensures r.Some? ==> forall m :: 0 <= m < r.value ==> !IsKeyed(content[m], key)
    ensures r.None? ==> forall m :: 0 <= m < |content| ==> !IsKeyed(content[m], key)
  {
    if content == [] then None
    else if IsKeyed(content[0], key) then Some(0)
    else match FindKey(content[1..], key)
      case None => None
      case Some(k) => Some(k + 1)
  }

  /** Child `m` is the pair `key = v`, and no child before it has that key. */
  predicate IsFirstPair(content: seq<LuaElement>, key: string, m: nat, v: LuaElement) {
    m < |content| && content[m] == KV(key, v) && forall j :: 0 <= j < m ==> !IsKeyed(content[j], key)
  }

  /** getElementByKey: the value of the first pair with that key, or null; anonymous children never match. */
  function GetElementByKey(obj: LuaElement, key: string): (r: Option<LuaElement>)
    requires obj.LuaObject?
    ensures r.None? <==> forall m :: 0 <= m < |obj.content| ==> !IsKeyed(obj.content[m], key)
    ensures r.Some? ==> exists m :: IsFirstPair(obj.content, key, m, r.value)
  {
    match FindKey(obj.content, key)
    case None => None
    case Some(k) =>
      assert IsFirstPair(obj.content, key, k, obj.content[k].value);
      Some(obj.content[k].value)
  }

  /** Boolean.toString. */
  function BoolToString(b: bool): string {
    if b then "true" else "false"
  }

  /** toJson. Strings and keys are written between quotes without escaping. */
  function ToJson(e: LuaElement): string
    decreases e
  {
    match e
    case LuaObject(c) => "[\n" + Join(ChildrenJson(c), ",\n") + "]"
    case BooleanLiteral(b) => BoolToString(b)
    case StringLiteral(x) => "\"" + x + "\""
    case LongLiteral(d) => DoubleToString(d)
    case KV(k, v) => "{\"key\": \"" + k + "\", \"value\": " + ToJson(v) + "}"
  }

  /** The children's renderings, in order. */
  function ChildrenJson(c: seq<LuaElement>): (r: seq<string>)
    ensures |r| == |c|
    decreases c
  {
    if c == [] then [] else [ToJson(c[0])] + ChildrenJson(c[1..])
  }

  /** What buildLuaObject has read: the children, the tokens left, and whether its `}` was met. */
  datatype Parsed = Parsed(content: seq<LuaElement>, rest: seq<Token>, closed: bool)

  /**
   * The loop of buildLuaObject over the tokens ts still to read, the children
   * read so far being acc: it stops after the object's `}` or when the tokens
   * run out, which is not an error.
   */
  function ParseContent(ts: seq<Token>, acc: seq<LuaElement>): (r: Result<Parsed, AstError>)
    ensures r.Success? ==> |r.value.rest| < |ts| || r.value.rest == [] == ts
    ensures r.Success? ==> r.value.closed || r.value.rest == []
    ensures r.Success? ==> acc <= r.value.content
    decreases |ts|
  {
    if ts == [] then Success(Parsed(acc, [], false))
    else
      match ts[0]
      case ObjectEnd => Success(Parsed(acc, ts[1..], true))
      case ObjectStart =>
        var inner :- ParseContent(ts[1..], []);
        ParseContent(inner.rest, acc + [LuaObject(inner.content)])
      case Key(k) =>
        if |ts| < 2 then Failure(NoMoreTokens)
        else if !ts[1].Assignment? then Failure(ExpectAssignment)
        else if |ts| < 3 then Failure(NoMoreTokens)
        else (
          match ts[2]
          case StringToken(x) => ParseContent(ts[3..], acc + [KV(k, StringLiteral(x))])
          case DoubleToken(d) => ParseContent(ts[3..], acc + [KV(k, LongLiteral(d))])
          case BooleanToken(b) => ParseContent(ts[3..], acc + [KV(k, BooleanLiteral(b))])
          case ObjectStart =>
            var inner :- ParseContent(ts[3..], []);
            ParseContent(inner.rest, acc + [KV(k, LuaObject(inner.content))])
          case _ => Failure(ExpectLiteral))
      case StringToken(x) => ParseContent(ts[1..], acc + [StringLiteral(x)])
      case DoubleToken(d) => ParseContent(ts[1..], acc + [LongLiteral(d)])
      case _ => Failure(ExpectKey(ts[0]))
  }

  /** The object buildLuaObject returns for what it has read. */
  function Built(p: Result<Parsed, AstError>): Result<LuaElement, AstError> {
    match p
    case Success(q) => Success(LuaObject(q.content))
    case Failure(e) => Failure(e)
  }

  /** buildAst: a `{`, one object, and nothing after it. */
  function ParseAst(ts: seq<Token>): (r: Result<LuaElement, AstError>)
    ensures r.Success? ==> |ts| > 0 && ts[0] == ObjectStart && r.value.LuaObject?
    ensures ts == [] ==> r == Failure(NoMoreTokens)
    ensures ts != [] && ts[0] != ObjectStart ==> r == Failure(ExpectObjectStart)
  {
    if ts == [] then Failure(NoMoreTokens)
    else if ts[0] != ObjectStart then Failure(ExpectObjectStart)
    else
      match ParseContent(ts[1..], [])
      case Failure(e) => Failure(e)
      case Success(p) => if p.rest != [] then Failure(NotFinished) else Success(LuaObject(p.content))
  }

  /** buildLuaObject, reading from the iterator just past a `{`. */
  method BuildLuaObject(it: SeqIterator<Token>) returns (r: Result<LuaElement, AstError>)
    requires it.Valid()
    modifies it`cursor
    ensures it.Valid()
    ensures r == Built(ParseContent(it.items[old(it.cursor)..], []))
    ensures r.Success? ==> it.items[it.cursor..] == ParseContent(it.items[old(it.cursor)..], []).value.rest
    decreases |it.items| - it.cursor
  {
    ghost var start := it.cursor;
    var content: seq<LuaElement> := [];
    while it.HasNext()
      invariant it.Valid() && start <= it.cursor
      invariant ParseContent(it.items[start..], []) == ParseContent(it.items[it.cursor..], content)
      decreases |it.items| - it.cursor
    {
      ghost var ts := it.items[it.cursor..];
      var next := it.Next();
      var current := next.value;
      assert ts[0] == current && ts[1..] == it.items[it.cursor..];
      if current.ObjectEnd? {
        return Success(LuaObject(content));
      } else if current.ObjectStart? {
        var child := BuildLuaObject(it);
        if child.Failure? {
          return Failure(child.error);
        }
        content := content + [child.value];
      } else if current.Key? {
        var key := current.key;
        var assignment := it.Next();
        if assignment.None? {
          return Failure(NoMoreTokens);
        }
        assert ts[1] == assignment.value;
        if !assignment.value.Assignment? {
          return Failure(ExpectAssignment);
        }
        var literal := it.Next();
        if literal.None? {
          return Failure(NoMoreTokens);
        }
        assert ts[2] == literal.value && ts[3..] == it.items[it.cursor..];
        var value: LuaElement;
        match literal.value {
          case StringToken(x) => value := StringLiteral(x);
          case DoubleToken(d) => value := LongLiteral(d);
          case BooleanToken(b) => value := BooleanLiteral(b);
          case ObjectStart =>
            var child := BuildLuaObject(it);
            if child.Failure? {
              return Failure(child.error);
            }
            value := child.value;
          case _ => return Failure(ExpectLiteral);
        }
        content := content + [KV(key, value)];
      } else if current.StringToken? {
        content := content + [StringLiteral(current.s)];
      } else if current.DoubleToken? {
        content := content + [LongLiteral(current.l)];
      } else {
        return Failure(ExpectKey(current));
      }
    }
    assert it.items[it.cursor..] == [];
    r := Success(LuaObject(content));
  }

  /** buildAst over the token list. */
  method BuildAst(tokens: seq<Token>) returns (r: Result<LuaElement, AstError>)
    ensures r == ParseAst(tokens)
  {
    var it := new SeqIterator(tokens);
    var first := it.Next();
    if first.None? {
      return Failure(NoMoreTokens);
    }
    if first.value != ObjectStart {
      return Failure(ExpectObjectStart);
    }
    assert it.items[it.cursor..] == tokens[1..];
    var root := BuildLuaObject(it);
    if root.Failure? {
      return root;
    }
    if it.HasNext() {
      return Failure(NotFinished);
    }
    r := root;
  }
}

/** What the builder makes of well-formed token streams, what it rejects, and how toJson grows. */
module AstFacts {
  import opened Wrappers
  import opened Text
  import opened Decimal
  import opened LuaTokenizer
  import opened LuaTokenizerFacts
  import opened Ast

  /** The tokens a child is written with: a pair as key, `=` and its value. */
  function ElementTokens(e: LuaElement): seq<Token>
    decreases e
  {
    match e
    case LuaObject(c) => [ObjectStart] + ContentTokens(c) + [ObjectEnd]
    case BooleanLiteral(b) => [BooleanToken(b)]
    case StringLiteral(x) => [StringToken(x)]
    case LongLiteral(d) => [DoubleToken(d)]
    case KV(k, v) => [Key(k), Assignment] + ElementTokens(v)
  }

  function ContentTokens(c: seq<LuaElement>): seq<Token>
    decreases c
  {
    if c == [] then [] else ElementTokens(c[0]) + ContentTokens(c[1..])
  }

  /** What may stand as a pair's value: a literal or an object of children. */
  predicate IsValue(v: LuaElement)
    decreases v, 1
  {
    match v
    case LuaObject(c) => AllChildren(c)
    case KV(_, _) => false
    case _ => true
  }

  /** What may stand in an object without a key: a string, a number, an object, or a pair. */
  predicate IsChild(e: LuaElement)
    decreases e, 2
  {
    match e
    case LuaObject(c) => AllChildren(c)
    case KV(_, v) => IsValue(v)
    case BooleanLiteral(_) => false
    case _ => true
  }

  predicate AllChildren(c: seq<LuaElement>)
    decreases c, 0
  {
    forall k :: 0 <= k < |c| ==> IsChild(c[k])
  }

  /** Reading one well-formed child adds it to the children and leaves the tokens after it. */
  lemma {:induction false} ParseElement(e: LuaElement, tail: seq<Token>, acc: seq<LuaElement>)
    requires IsChild(e)
    ensures ParseContent(ElementTokens(e) + tail, acc) == ParseContent(tail, acc + [e])
    decreases e, 2
  {
    if e.LuaObject? {
      ParseNested(e, tail, acc);
    } else if e.KV? {
      ParsePair(e, tail, acc);
    } else {
      ParseLeaf(e, tail, acc);
    }
  }

  lemma ParseLeaf(e: LuaElement, tail: seq<Token>, acc: seq<LuaElement>)
    requires e.StringLiteral? || e.LongLiteral?
    ensures ParseContent(ElementTokens(e) + tail, acc) == ParseContent(tail, acc + [e])
  {
    var ts := ElementTokens(e) + tail;
    assert ts[1..] == tail;
  }

  lemma {:induction false} ParseNested(e: LuaElement, tail: seq<Token>, acc: seq<LuaElement>)
    requires e.LuaObject? && AllChildren(e.content)
    ensures ParseContent(ElementTokens(e) + tail, acc) == ParseContent(tail, acc + [e])
    decreases e, 1
  {
    var c := e.content;
    var inner := ContentTokens(c) + ([ObjectEnd] + tail);
    ParseObject(c, tail);
    assert ElementTokens(e) + tail == [ObjectStart] + inner;
    StepObject(inner, acc, c, tail);
  }

  /** A `{` whose content reads as c, closed, before tail. */
  lemma StepObject(inner: seq<Token>, acc: seq<LuaElement>, c: seq<LuaElement>, tail: seq<Token>)
    requires ParseContent(inner, []) == Success(Parsed(c, tail, true))
    ensures ParseContent([ObjectStart] + inner, acc) == ParseContent(tail, acc + [LuaObject(c)])
  {
    assert ([ObjectStart] + inner)[1..] == inner;
  }

  /** `key = {` and content that reads as c, closed, before tail. */
  lemma StepPairObject(k: string, inner: seq<Token>, acc: seq<LuaElement>, c: seq<LuaElement>, tail: seq<Token>)
    requires ParseContent(inner, []) == Success(Parsed(c, tail, true))
    ensures ParseContent([Key(k), Assignment, ObjectStart] + inner, acc) == ParseContent(tail, acc + [KV(k, LuaObject(c))])
  {
    assert ([Key(k), Assignment, ObjectStart] + inner)[3..] == inner;
  }

  lemma {:induction false} ParsePair(e: LuaElement, tail: seq<Token>, acc: seq<LuaElement>)
    requires e.KV? && IsValue(e.value)
    ensures ParseContent(ElementTokens(e) + tail, acc) == ParseContent(tail, acc + [e])
    decreases e, 1
  {
    if e.value.LuaObject? {
      ParsePairObject(e, tail, acc);
    } else {
      ParsePairLiteral(e, tail, acc);
    }
  }

  lemma ParsePairLiteral(e: LuaElement, tail: seq<Token>, acc: seq<LuaElement>)
    requires e.KV? && (e.value.StringLiteral? || e.value.LongLiteral? || e.value.BooleanLiteral?)
    ensures ParseContent(ElementTokens(e) + tail, acc) == ParseContent(tail, acc + [e])
  {
    var ts := ElementTokens(e) + tail;
    var v := e.value;
    var t := ElementTokens(v)[0];
    assert ElementTokens(v) == [t];
    assert ts == [Key(e.key), Assignment, t] + tail;
    assert ts[3..] == tail;
  }

  lemma {:induction false} ParsePairObject(e: LuaElement, tail: seq<Token>, acc: seq<LuaElement>)
    requires e.KV? && e.value.LuaObject? && AllChildren(e.value.content)
    ensures ParseContent(ElementTokens(e) + tail, acc) == ParseContent(tail, acc + [e])
    decreases e, 0
  {
    var c := e.value.content;
    var inner := ContentTokens(c) + ([ObjectEnd] + tail);
    ParseObject(c, tail);
    assert ElementTokens(e.value) == [ObjectStart] + ContentTokens(c) + [ObjectEnd];
    assert ElementTokens(e) + tail == [Key(e.key), Assignment, ObjectStart] + inner;
    StepPairObject(e.key, inner, acc, c, tail);
  }

  /** An object's content and its `}`: the children, and the tokens after it. */
  lemma {:induction false} ParseObject(c: seq<LuaElement>, tail: seq<Token>)
    requires AllChildren(c)
    ensures ParseContent(ContentTokens(c) + ([ObjectEnd] + tail), []) == Success(Parsed(c, tail, true))
    decreases c, 4
  {
    ParsePrefix(c, [ObjectEnd] + tail, []);
    assert [] + c == c;
  }

  /** The children are read in token order, whatever follows them. */
  lemma {:induction false} ParsePrefix(c: seq<LuaElement>, rest: seq<Token>, acc: seq<LuaElement>)
    requires AllChildren(c)
    ensures ParseContent(ContentTokens(c) + rest, acc) == ParseContent(rest, acc + c)
    decreases c, 3
  {
    if c == [] {
      assert ContentTokens(c) + rest == rest;
      assert acc + c == acc;
    } else {
      var tail := ContentTokens(c[1..]) + rest;
      assert ContentTokens(c) + rest == ElementTokens(c[0]) + tail;
      assert IsChild(c[0]);
      ParseElement(c[0], tail, acc);
      ParsePrefix(c[1..], rest, acc + [c[0]]);
      AppendFirst(acc, c);
    }
  }

  lemma AppendFirst<T>(acc: seq<T>, c: seq<T>)
    requires c != []
    ensures acc + [c[0]] + c[1..] == acc + c
  {
    assert c == [c[0]] + c[1..];
  }

  /** The tokens of an object are built back into that object. */
  lemma RoundTrip(c: seq<LuaElement>)
    requires AllChildren(c)
    ensures ParseAst(ElementTokens(LuaObject(c))) == Success(LuaObject(c))
  {
    var ts := ElementTokens(LuaObject(c));
    assert ts[1..] == ContentTokens(c) + ([ObjectEnd] + []);
    ParseObject(c, []);
  }

  /** The outer `}` may be missing: running out of tokens ends the object. */
  lemma OpenRoundTrip(c: seq<LuaElement>)
    requires AllChildren(c)
    ensures ParseAst([ObjectStart] + ContentTokens(c)) == Success(LuaObject(c))
  {
    var ts := [ObjectStart] + ContentTokens(c);
    assert ts[1..] == ContentTokens(c) + [];
    ParsePrefix(c, [], []);
    assert [] + c == c;
  }

  /** Any token after the outer object's `}` makes buildAst fail. */
  lemma TrailingTokens(c: seq<LuaElement>, extra: seq<Token>)
    requires AllChildren(c) && extra != []
    ensures ParseAst(ElementTokens(LuaObject(c)) + extra) == Failure(NotFinished)
  {
    var ts := ElementTokens(LuaObject(c)) + extra;
    assert ts[1..] == ContentTokens(c) + ([ObjectEnd] + extra);
    ParseObject(c, extra);
  }

  /** The stream after some well-formed children is read with those children in hand. */
  lemma AfterChildren(c: seq<LuaElement>, rest: seq<Token>)
    requires AllChildren(c)
    ensures ParseContent(([ObjectStart] + ContentTokens(c) + rest)[1..], []) == ParseContent(rest, c)
  {
    assert ([ObjectStart] + ContentTokens(c) + rest)[1..] == ContentTokens(c) + rest;
    ParsePrefix(c, rest, []);
    assert [] + c == c;
  }

  /** An unkeyed boolean or `=` stops the build with "Expect a key". */
  lemma StrayToken(c: seq<LuaElement>, t: Token, rest: seq<Token>)
    requires AllChildren(c) && (t.BooleanToken? || t.Assignment?)
    ensures ParseAst([ObjectStart] + ContentTokens(c) + [t] + rest) == Failure(ExpectKey(t))
  {
    assert [ObjectStart] + ContentTokens(c) + [t] + rest == [ObjectStart] + ContentTokens(c) + ([t] + rest);
    AfterChildren(c, [t] + rest);
  }

  /** A key must be followed by `=`. */
  lemma KeyWithoutAssignment(c: seq<LuaElement>, k: string, t: Token, rest: seq<Token>)
    requires AllChildren(c) && !t.Assignment?
    ensures ParseAst([ObjectStart] + ContentTokens(c) + [Key(k), t] + rest) == Failure(ExpectAssignment)
  {
    assert [ObjectStart] + ContentTokens(c) + [Key(k), t] + rest == [ObjectStart] + ContentTokens(c) + ([Key(k), t] + rest);
    AfterChildren(c, [Key(k), t] + rest);
  }

  /** `key =` must be followed by a string, a number, a boolean or an object. */
  lemma KeyWithoutValue(c: seq<LuaElement>, k: string, t: Token, rest: seq<Token>)
    requires AllChildren(c)
    requires !(t.StringToken? || t.DoubleToken? || t.BooleanToken? || t.ObjectStart?)
    ensures ParseAst([ObjectStart] + ContentTokens(c) + [Key(k), Assignment, t] + rest) == Failure(ExpectLiteral)
  {
    assert [ObjectStart] + ContentTokens(c) + [Key(k), Assignment, t] + rest
        == [ObjectStart] + ContentTokens(c) + ([Key(k), Assignment, t] + rest);
    AfterChildren(c, [Key(k), Assignment, t] + rest);
  }

  /** Tokens that end inside a pair: next() has nothing left to give. */
  lemma PairCutShort(c: seq<LuaElement>, k: string)
    requires AllChildren(c)
    ensures ParseAst([ObjectStart] + ContentTokens(c) + [Key(k)]) == Failure(NoMoreTokens)
    ensures ParseAst([ObjectStart] + ContentTokens(c) + [Key(k), Assignment]) == Failure(NoMoreTokens)
  {
    AfterChildren(c, [Key(k)]);
    AfterChildren(c, [Key(k), Assignment]);
  }

  /** The first character of toJson tells the kind of element. */
  lemma JsonStart(e: LuaElement)
    ensures |ToJson(e)| > 0
    ensures ToJson(e)[0] == '[' <==> e.LuaObject?
    ensures ToJson(e)[0] == '{' <==> e.KV?
    ensures ToJson(e)[0] == '"' <==> e.StringLiteral?
    ensures e.BooleanLiteral? ==> ToJson(e)[0] == (if e.b then 't' else 'f')
    ensures e.LongLiteral? ==> ToJson(e)[0] == '-' || IsDigit(ToJson(e)[0])
  {
    if e.LongLiteral? {
      DoubleToStringStart(e.number);
    }
  }

  /** Kotlin joinToString, one element more. */
  lemma {:induction false} JoinSnoc(xs: seq<string>, x: string, sep: string)
    ensures Join(xs + [x], sep) == if xs == [] then x else Join(xs, sep) + sep + x
    decreases |xs|
  {
    if |xs| == 1 {
      assert (xs + [x])[1..] == [x];
    } else if |xs| > 1 {
      assert (xs + [x])[1..] == xs[1..] + [x];
      JoinSnoc(xs[1..], x, sep);
    }
  }

  lemma {:induction false} ChildrenJsonSnoc(c: seq<LuaElement>, e: LuaElement)
    ensures ChildrenJson(c + [e]) == ChildrenJson(c) + [ToJson(e)]
    decreases |c|
  {
    if c == [] {
      assert [e][1..] == [];
    } else {
      assert (c + [e])[1..] == c[1..] + [e];
      ChildrenJsonSnoc(c[1..], e);
    }
  }

  /** Adding a child to an object: its rendering goes before the closing bracket, after ",\n" unless it is the first. */
  lemma JsonAppend(c: seq<LuaElement>, e: LuaElement)
    ensures var before := ToJson(LuaObject(c));
      ToJson(LuaObject(c + [e])) ==
        if c == [] then "[\n" + ToJson(e) + "]"
        else before[..|before| - 1] + ",\n" + ToJson(e) + "]"
  {
    ChildrenJsonSnoc(c, e);
    JoinSnoc(ChildrenJson(c), ToJson(e), ",\n");
    var before := ToJson(LuaObject(c));
    var inner := "[\n" + Join(ChildrenJson(c), ",\n");
    assert before == inner + "]";
    assert before[..|before| - 1] == inner;
  }

  /**
   * From Lua text to tree: an object's tokens, written out with a space after
   * each, are tokenized back and built into the same object.
   */
  lemma TextToTree(c: seq<LuaElement>)
    requires AllChildren(c)
    requires forall k :: 0 <= k < |ElementTokens(LuaObject(c))| ==> Writable(ElementTokens(LuaObject(c))[k])
    ensures var text := Layout(Spaced(ElementTokens(LuaObject(c))));
      Lex(text, 0).Success? && ParseAst(Lex(text, 0).value) == Success(LuaObject(c))
  {
    LexSpaced(ElementTokens(LuaObject(c)));
    RoundTrip(c);
  }
}
