/** The tokenizer's unit tests, and a few edge cases, as instances of the step lemmas. */
module LuaTokenizerExamples {
  import opened Wrappers
  import opened Decimal
  import opened LuaTokenizer
  import opened LuaTokenizerFacts

  /** The last token of a text. */
  lemma Last(t: Token, r: Result<seq<Token>, LexError>)
    requires r == PrependAll([t], Success([]))
    ensures r == Success([t])
  {
    assert [t] + [] == [t];
  }

  lemma StringTokenExample()
    ensures Lex("\"salut\"", 0) == Success([StringToken("salut")])
  {
    var s := "\"salut\"";
    assert |s| == 7;
    LexString(s, 0, "salut");
    Last(StringToken("salut"), Lex(s, 0));
  }

  lemma BooleanTokenExample()
    ensures Lex("true", 0) == Success([BooleanToken(true)])
  {
    var s := "true";
    assert |s| == 4;
    LexBoolean(s, 0, true);
    Last(BooleanToken(true), Lex(s, 0));
  }

  lemma DoubleTokenExample()
    ensures Lex("250.0", 0) == Success([DoubleToken(Decimal(false, 250, 0))])
  {
    var s := "250.0";
    var d := Decimal(false, 250, 0);
    PlainWholeExamples();
    assert Render(d) == s;
    assert |s| == 5;
    LexRendered(s, 0, d);
    Last(DoubleToken(d), Lex(s, 0));
  }

  lemma PunctuationExamples()
    ensures Lex("{", 0) == Success([ObjectStart])
    ensures Lex("}", 0) == Success([ObjectEnd])
    ensures Lex("=", 0) == Success([Assignment])
  {
    LexPunctuation("{", 0);
    Last(ObjectStart, Lex("{", 0));
    LexPunctuation("}", 0);
    Last(ObjectEnd, Lex("}", 0));
    LexPunctuation("=", 0);
    Last(Assignment, Lex("=", 0));
  }

  lemma KeyTokenExample()
    ensures Lex("[\"my-key\"]", 0) == Success([Key("my-key")])
  {
    var s := "[\"my-key\"]";
    assert |s| == 10;
    LexKey(s, 0, "my-key");
    Last(Key("my-key"), Lex(s, 0));
  }

  /** A number key is named by the rendering of its double. */
  lemma NumberKeyExample()
    ensures Lex("[1]", 0) == Success([Key("1.0")])
  {
    var s := "[1]";
    var d := Decimal(false, 1, 0);
    assert |s| == 3;
    LexNumberKey(s, 0, "1", d);
    Last(Key(DoubleToString(d)), Lex(s, 0));
    PlainWholeExamples();
  }

  /** A lone minus sign is handed to toDouble and throws. */
  lemma LoneMinusExample()
    ensures Lex("-", 0) == Failure(NumberFormat("-"))
  {
    LexBadNumber("-", 0, "-");
  }
}
