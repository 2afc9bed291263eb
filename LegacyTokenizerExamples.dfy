/** The older tokenizer on the inputs its demo and its design call out. */
module LegacyTokenizerExamples {
  import opened Wrappers
  import opened Text
  import Lua = LuaTokenizer
  import opened LegacyTokenizer
  import opened LegacyTokenizerFacts

  lemma Last(t: Token, r: Result<seq<Token>, Lua.LexError>)
    requires r == Lua.PrependAll([t], Success([]))
    ensures r == Success([t])
  {
    assert [t] + [] == [t];
  }

  /** The quotes of a Lua string key stay in the key. */
  lemma RawKeyExample()
    ensures Lex("[\"faction\"]", 0) == Success([Key("\"faction\"")])
  {
    var s := "[\"faction\"]";
    var k := "\"faction\"";
    assert |s| == 11 && s == "[" + k + "]";
    LexRawKey(s, 0, k);
    Last(Key(k), Lex(s, 0));
  }

  /** Words other than "true" are false, never an error. */
  lemma SalutExample()
    ensures Lex("salut", 0) == Success([BooleanToken(false)])
  {
    var s := "salut";
    assert |s| == 5;
    LexWord(s, 0, s);
    Last(BooleanToken(false), Lex(s, 0));
  }

  lemma FerExample()
    ensures Lex("fer", 0) == Success([BooleanToken(false)])
  {
    var s := "fer";
    assert |s| == 3;
    LexWord(s, 0, s);
    Last(BooleanToken(false), Lex(s, 0));
  }

  /** toBoolean ignores case. */
  lemma UpperTrueExample()
    ensures Lex("TRUE", 0) == Success([BooleanToken(true)])
  {
    var s := "TRUE";
    assert |s| == 4;
    assert Lua.ToBoolean(s) by {
      assert ToLower(s[0]) == 't' && ToLower(s[1]) == 'r' && ToLower(s[2]) == 'u' && ToLower(s[3]) == 'e';
    }
    LexWord(s, 0, s);
    Last(BooleanToken(true), Lex(s, 0));
  }

  lemma LongExample()
    ensures Lex("500", 0) == Success([LongToken(500)])
  {
    var s := "500";
    assert |s| == 3;
    assert ParseLong(s) == Some(500) by {
      assert s[..2] == "50" && s[..2][..1] == "5";
      assert DigitsValue("5") == 5 by { assert "5"[..0] == ""; }
      assert DigitsValue(s) == 500;
    }
    LexLong(s, 0, s, 500);
    Last(LongToken(500), Lex(s, 0));
  }

  /** A decimal point makes toLong throw. */
  lemma DottedExample()
    ensures Lex("1.5", 0) == Failure(Lua.NumberFormat("1.5"))
  {
    var s := "1.5";
    assert s[1] == '.';
    LexDotted(s, 0, s);
  }
}
