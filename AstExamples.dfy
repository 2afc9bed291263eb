/** The builder's unit tests, and key lookup, as instances of the round-trip lemmas. */
module AstExamples {
  import opened Wrappers
  import opened Decimal
  import opened LuaTokenizer
  import opened Ast
  import opened AstFacts

  lemma ContentOne(e: LuaElement)
    ensures ContentTokens([e]) == ElementTokens(e)
  {
    assert [e][1..] == [];
  }

  lemma ContentTwo(a: LuaElement, b: LuaElement)
    ensures ContentTokens([a, b]) == ElementTokens(a) + ElementTokens(b)
  {
    assert [a, b][1..] == [b];
    ContentOne(b);
  }

  lemma SimpleObject()
    ensures ParseAst([ObjectStart, Key("faction"), Assignment, StringToken("Alliance"),
                      Key("realm"), Assignment, StringToken("Sulfuron"), ObjectEnd])
         == Success(LuaObject([KV("faction", StringLiteral("Alliance")), KV("realm", StringLiteral("Sulfuron"))]))
  {
    var a, b := KV("faction", StringLiteral("Alliance")), KV("realm", StringLiteral("Sulfuron"));
    var c := [a, b];
    assert AllChildren(c) by {
      assert IsChild(c[0]) && IsChild(c[1]);
    }
    ContentTwo(a, b);
    var ta := [Key("faction"), Assignment, StringToken("Alliance")];
    var tb := [Key("realm"), Assignment, StringToken("Sulfuron")];
    assert ElementTokens(a) == ta;
    assert ElementTokens(b) == tb;
    var ts := [ObjectStart, Key("faction"), Assignment, StringToken("Alliance"),
               Key("realm"), Assignment, StringToken("Sulfuron"), ObjectEnd];
    assert ElementTokens(LuaObject(c)) == [ObjectStart] + (ta + tb) + [ObjectEnd];
    assert [ObjectStart] + (ta + tb) + [ObjectEnd] == ts;
    RoundTrip(c);
  }

  lemma NestedObject()
    ensures ParseAst([ObjectStart, Key("key"), Assignment, ObjectStart, Key("sub-key"), Assignment,
                      StringToken("value"), ObjectEnd, ObjectEnd])
         == Success(LuaObject([KV("key", LuaObject([KV("sub-key", StringLiteral("value"))]))]))
  {
    var leaf := KV("sub-key", StringLiteral("value"));
    var pair := KV("key", LuaObject([leaf]));
    assert AllChildren([leaf]) by { assert IsChild([leaf][0]); }
    assert AllChildren([pair]) by { assert IsChild([pair][0]); }
    ContentOne(leaf);
    ContentOne(pair);
    var inner := [Key("sub-key"), Assignment, StringToken("value")];
    assert ElementTokens(leaf) == inner;
    var tp := [Key("key"), Assignment, ObjectStart] + inner + [ObjectEnd];
    assert ElementTokens(pair) == tp;
    var ts := [ObjectStart, Key("key"), Assignment, ObjectStart, Key("sub-key"), Assignment,
               StringToken("value"), ObjectEnd, ObjectEnd];
    assert ElementTokens(LuaObject([pair])) == [ObjectStart] + tp + [ObjectEnd];
    assert [ObjectStart] + tp + [ObjectEnd] == ts;
    RoundTrip([pair]);
  }

  /** The list test's object: a key whose value is an object of two anonymous objects. */
  function ListObject(): LuaElement {
    KV("key", LuaObject([
      LuaObject([KV("sub-key-1", StringLiteral("value1"))]),
      LuaObject([KV("sub-key-2", LongLiteral(Decimal(false, 2, 0)))])]))
  }

  lemma ListObjectTokens()
    ensures AllChildren([ListObject()])
    ensures ContentTokens([ListObject()])
         == [Key("key"), Assignment, ObjectStart,
             ObjectStart, Key("sub-key-1"), Assignment, StringToken("value1"), ObjectEnd,
             ObjectStart, Key("sub-key-2"), Assignment, DoubleToken(Decimal(false, 2, 0)), ObjectEnd,
             ObjectEnd]
  {
    var one := KV("sub-key-1", StringLiteral("value1"));
    var two := KV("sub-key-2", LongLiteral(Decimal(false, 2, 0)));
    var first, second := LuaObject([one]), LuaObject([two]);
    var pair := ListObject();
    assert AllChildren([one]) by { assert IsChild([one][0]); }
    assert AllChildren([two]) by { assert IsChild([two][0]); }
    assert AllChildren([first, second]) by { assert IsChild([first, second][0]) && IsChild([first, second][1]); }
    assert AllChildren([pair]) by { assert IsChild([pair][0]); }
    ContentOne(one);
    ContentOne(two);
    ContentTwo(first, second);
    ContentOne(pair);
    var t1 := [ObjectStart, Key("sub-key-1"), Assignment, StringToken("value1"), ObjectEnd];
    var t2 := [ObjectStart, Key("sub-key-2"), Assignment, DoubleToken(Decimal(false, 2, 0)), ObjectEnd];
    assert ElementTokens(first) == t1;
    assert ElementTokens(second) == t2;
    var tp := [Key("key"), Assignment, ObjectStart] + (t1 + t2) + [ObjectEnd];
    assert ElementTokens(pair) == tp;
  }

  /** The list test's tokens: the outer `}` is missing. */
  function ListTestTokens(): seq<Token> {
    [ObjectStart] + ContentTokens([ListObject()])
  }

  lemma ListTestTokensAre()
    ensures ListTestTokens() == [ObjectStart,
                      Key("key"), Assignment, ObjectStart,
                      ObjectStart, Key("sub-key-1"), Assignment, StringToken("value1"), ObjectEnd,
                      ObjectStart, Key("sub-key-2"), Assignment, DoubleToken(Decimal(false, 2, 0)), ObjectEnd,
                      ObjectEnd]
  {
    ListObjectTokens();
  }

  /** Without its closing `}` the object is still built. */
  lemma ObjectWithList()
    ensures ParseAst(ListTestTokens()) == Success(LuaObject([ListObject()]))
  {
    ListObjectTokens();
    OpenRoundTrip([ListObject()]);
  }

  /** The first pair with the key wins; an anonymous string with the same text does not count. */
  lemma FirstKeyWins()
    ensures GetElementByKey(LuaObject([StringLiteral("k"), KV("k", StringLiteral("1")), KV("k", StringLiteral("2"))]), "k")
         == Some(StringLiteral("1"))
    ensures GetElementByKey(LuaObject([StringLiteral("k")]), "k") == None
  {
    var c := [StringLiteral("k"), KV("k", StringLiteral("1")), KV("k", StringLiteral("2"))];
    assert c[1..][0] == KV("k", StringLiteral("1"));
  }
}
