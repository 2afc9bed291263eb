/**
 * The older Lua-table tokenizer (tokenize2). It shares the cursor discipline, the
 * producer order and the string and word producers with the current one, but a
 * key is the raw text up to the next ']' and a number goes through Long.parseLong.
 */
module LegacyTokenizer {
  import opened Wrappers
  import opened Text
  import opened Cursor
  import Lua = LuaTokenizer

  datatype Token =
    | StringToken(s: string)
    | LongToken(l: int)
    | BooleanToken(b: bool)
    | ObjectStart
    | ObjectEnd
    | Key(key: string)
    | Assignment

  predicate NotBracket(c: char) {
    c != ']'
  }

  function AssignmentToken(c: char): Option<Token> {
    if c == '=' then Some(Assignment) else None
  }

  function ObjectStartToken(c: char): Option<Token> {
    if c == '{' then Some(ObjectStart) else None
  }

  function ObjectEndToken(c: char): Option<Token> {
    if c == '}' then Some(ObjectEnd) else None
  }

  /**
   * keyTokenProducer with c = s[j - 1]: on a '[', every character up to the next
   * ']', verbatim; the ']' is consumed. At the end of the text the key is what is left.
   */
  function RawKeyAt(s: string, j: nat): (r: Lua.Produced<Token>)
    requires 0 < j <= |s|
    ensures !r.Fail?
    ensures r.Emit? ==> j <= r.next <= |s| && r.value.Key? && forall x :: x in r.value.key ==> x != ']'
  {
    if s[j - 1] != '[' then Lua.NoMatch
    else Lua.Emit(Key(s[j..j + RunLength(s, j, NotBracket)]), AfterTakeWhile(s, j, NotBracket))
  }

  /**
   * longTokenProducer with c = s[j - 1]: on a digit or '-', the lexeme (c and the
   * run of digits and '.') goes through toLong, which throws on anything but an
   * optionally signed run of digits in the 64-bit range. The character that ends
   * the run is pushed back, and so is a '.' that ends the text.
   */
  function LongAt(s: string, j: nat): (r: Lua.Produced<int>)
    requires 0 < j <= |s|
    ensures r.Emit? ==> j <= r.next <= |s| && LONG_MIN <= r.value <= LONG_MAX
    ensures r.Fail? ==> r.error == Lua.NumberFormat(Lua.NumberLexeme(s, j))
  {
    var c := s[j - 1];
    if !(IsDigit(c) || c == '-') then Lua.NoMatch
    else
      match ParseLong(Lua.NumberLexeme(s, j))
      case None => Lua.Fail(Lua.NumberFormat(Lua.NumberLexeme(s, j)))
      case Some(x) => Lua.Emit(x, AfterPushBack(s, j, Lua.NumberChar, IsDigit))
  }

  function AsString(x: string): Token { StringToken(x) }
  function AsLong(x: int): Token { LongToken(x) }
  function AsBoolean(x: bool): Token { BooleanToken(x) }

  /** One producer's `produce(c, iterator)`, with c = s[j - 1]; the producers are those of the current tokenizer, in the same order. */
  function ProducerAt(p: Lua.Producer, s: string, j: nat): (r: Lua.Produced<Token>)
    requires 0 < j <= |s|
    ensures r.Emit? ==> j <= r.next <= |s|
  {
    match p
    case AssignmentProducer => Lua.Here(AssignmentToken(s[j - 1]), j)
    case ObjectStartProducer => Lua.Here(ObjectStartToken(s[j - 1]), j)
    case ObjectEndProducer => Lua.Here(ObjectEndToken(s[j - 1]), j)
    case KeyProducer => RawKeyAt(s, j)
    case StringProducer => Lua.StringAt(s, j).Map(AsString)
    case LongProducer => LongAt(s, j).Map(AsLong)
    case BooleanProducer => Lua.BooleanAt(s, j).Map(AsBoolean)
  }

  function FirstOf(ps: seq<Lua.Producer>, s: string, j: nat): (r: Lua.Produced<Token>)
    requires 0 < j <= |s|
    ensures r.Emit? ==> j <= r.next <= |s|
  {
    if ps == [] then Lua.NoMatch else ProducerAt(ps[0], s, j).OrElse(FirstOf(ps[1..], s, j))
  }

  function TokenAt(s: string, j: nat): (r: Lua.Produced<Token>)
    requires 0 < j <= |s|
    ensures r.Emit? ==> j <= r.next <= |s|
  {
    FirstOf(Lua.PRODUCERS, s, j)
  }

  /** The chain written out, producer by producer. */
  lemma TokenAtChain(s: string, j: nat)
    requires 0 < j <= |s|
    ensures TokenAt(s, j) ==
      Lua.Here(AssignmentToken(s[j - 1]), j).OrElse(
      Lua.Here(ObjectStartToken(s[j - 1]), j).OrElse(
      Lua.Here(ObjectEndToken(s[j - 1]), j).OrElse(
      RawKeyAt(s, j).OrElse(
      Lua.StringAt(s, j).Map(AsString).OrElse(
      LongAt(s, j).Map(AsLong).OrElse(
      Lua.BooleanAt(s, j).Map(AsBoolean).OrElse(Lua.NoMatch)))))))
  {
    var ps := Lua.PRODUCERS;
    assert ps[1..] == [Lua.ObjectStartProducer, Lua.ObjectEndProducer, Lua.KeyProducer,
                       Lua.StringProducer, Lua.LongProducer, Lua.BooleanProducer];
    assert ps[2..] == ps[1..][1..];
    assert ps[3..] == ps[2..][1..];
    assert ps[4..] == ps[3..][1..];
    assert ps[5..] == ps[4..][1..];
    assert ps[6..] == ps[5..][1..];
    assert ps[7..] == ps[6..][1..] == [];
    assert FirstOf(ps[6..], s, j) == Lua.BooleanAt(s, j).Map(AsBoolean).OrElse(Lua.NoMatch);
    assert FirstOf(ps[5..], s, j) == LongAt(s, j).Map(AsLong).OrElse(FirstOf(ps[6..], s, j));
    assert FirstOf(ps[4..], s, j) == Lua.StringAt(s, j).Map(AsString).OrElse(FirstOf(ps[5..], s, j));
    assert FirstOf(ps[3..], s, j) == RawKeyAt(s, j).OrElse(FirstOf(ps[4..], s, j));
    assert FirstOf(ps[2..], s, j) == Lua.Here(ObjectEndToken(s[j - 1]), j).OrElse(FirstOf(ps[3..], s, j));
    assert FirstOf(ps[1..], s, j) == Lua.Here(ObjectStartToken(s[j - 1]), j).OrElse(FirstOf(ps[2..], s, j));
  }

  /** Which producer answers, by the class of the character read. */
  lemma TokenAtPunctuation(s: string, j: nat)
    requires 0 < j <= |s| && s[j - 1] in "={}"
    ensures s[j - 1] == '=' ==> TokenAt(s, j) == Lua.Emit(Assignment, j)
    ensures s[j - 1] == '{' ==> TokenAt(s, j) == Lua.Emit(ObjectStart, j)
    ensures s[j - 1] == '}' ==> TokenAt(s, j) == Lua.Emit(ObjectEnd, j)
  {
    TokenAtChain(s, j);
  }

  lemma TokenAtKey(s: string, j: nat)
    requires 0 < j <= |s| && s[j - 1] == '['
    ensures TokenAt(s, j) == RawKeyAt(s, j)
  {
    TokenAtChain(s, j);
  }

  lemma TokenAtString(s: string, j: nat)
    requires 0 < j <= |s| && s[j - 1] == '"'
    ensures TokenAt(s, j) == Lua.StringAt(s, j).Map(AsString)
  {
    TokenAtChain(s, j);
  }

  lemma TokenAtNumber(s: string, j: nat)
    requires 0 < j <= |s| && (IsDigit(s[j - 1]) || s[j - 1] == '-')
    ensures TokenAt(s, j) == LongAt(s, j).Map(AsLong)
  {
    TokenAtChain(s, j);
  }

  lemma TokenAtWord(s: string, j: nat)
    requires 0 < j <= |s| && IsLetter(s[j - 1])
    ensures TokenAt(s, j) == Lua.BooleanAt(s, j).Map(AsBoolean)
  {
    TokenAtChain(s, j);
  }

  /** Every other character is declined by all seven producers. */
  lemma TokenAtOther(s: string, j: nat)
    requires 0 < j <= |s|
    requires !(s[j - 1] in "={}[\"" || IsDigit(s[j - 1]) || s[j - 1] == '-' || IsLetter(s[j - 1]))
    ensures TokenAt(s, j) == Lua.NoMatch
  {
    TokenAtChain(s, j);
  }

  /** The tokens of s from cursor i on, in source order, or the NumberFormatException that stops tokenize2. */
  function Lex(s: string, i: nat): Result<seq<Token>, Lua.LexError>
    requires i <= |s|
    decreases |s| - i
  {
    if i == |s| then Success([])
    else
      match TokenAt(s, i + 1)
      case NoMatch => Lex(s, i + 1)
      case Emit(t, n) => Lua.PrependAll([t], Lex(s, n))
      case Fail(e) => Failure(e)
  }

  lemma LexEmit(s: string, i: nat, t: Token, n: nat)
    requires i < |s| && TokenAt(s, i + 1) == Lua.Emit(t, n)
    ensures n <= |s| && Lex(s, i) == Lua.PrependAll([t], Lex(s, n))
  {
  }

  lemma LexDecline(s: string, i: nat)
    requires i < |s| && TokenAt(s, i + 1) == Lua.NoMatch
    ensures Lex(s, i) == Lex(s, i + 1)
  {
  }

  lemma LexThrow(s: string, i: nat, e: Lua.LexError)
    requires i < |s| && TokenAt(s, i + 1) == Lua.Fail(e)
    ensures Lex(s, i) == Failure(e)
  {
  }

  /** The only exception tokenize2 can throw is NumberFormatException. */
  lemma {:induction false} LexFailsOnNumber(s: string, i: nat)
    requires i <= |s|
    ensures Lex(s, i).Failure? ==> Lex(s, i).error.NumberFormat?
    decreases |s| - i
  {
    if i < |s| {
      match TokenAt(s, i + 1)
      case NoMatch => LexFailsOnNumber(s, i + 1);
      case Emit(t, n) => LexFailsOnNumber(s, n);
      case Fail(e) =>
        TokenAtChain(s, i + 1);
    }
  }

  method ProduceRawKey(c: char, it: SeqIterator<char>) returns (r: Result<Option<Token>, Lua.LexError>)
    requires it.Valid() && 0 < it.cursor && c == it.items[it.cursor - 1]
    modifies it`cursor
    ensures it.Valid()
    ensures r == RawKeyAt(it.items, old(it.cursor)).Outcome()
    ensures RawKeyAt(it.items, old(it.cursor)).LeavesAt(old(it.cursor), it.cursor)
  {
    if c == '[' {
      var k := it.TakeWhile(NotBracket);
      r := Success(Some(Key(k)));
    } else {
      r := Success(None);
    }
  }

  method ProduceLong(c: char, it: SeqIterator<char>) returns (r: Result<Option<int>, Lua.LexError>)
    requires it.Valid() && 0 < it.cursor && c == it.items[it.cursor - 1]
    modifies it`cursor
    ensures it.Valid()
    ensures r == LongAt(it.items, old(it.cursor)).Outcome()
    ensures LongAt(it.items, old(it.cursor)).LeavesAt(old(it.cursor), it.cursor)
  {
    if IsDigit(c) || c == '-' {
      var run := it.RunThenPushBack(Lua.NumberChar, IsDigit);
      var lexeme := [c] + run;
      assert lexeme == Lua.NumberLexeme(it.items, old(it.cursor));
      match ParseLong(lexeme)
      case None => r := Failure(Lua.NumberFormat(lexeme));
      case Some(x) => r := Success(Some(x));
    } else {
      r := Success(None);
    }
  }

  /** The producer chain for one character already read. */
  method Produce(c: char, it: SeqIterator<char>) returns (r: Result<Option<Token>, Lua.LexError>)
    requires it.Valid() && 0 < it.cursor && c == it.items[it.cursor - 1]
    modifies it`cursor
    ensures it.Valid()
    ensures r == TokenAt(it.items, old(it.cursor)).Outcome()
    ensures TokenAt(it.items, old(it.cursor)).LeavesAt(old(it.cursor), it.cursor)
  {
    TokenAtChain(it.items, it.cursor);
    var single := AssignmentToken(c);
    if single.None? {
      single := ObjectStartToken(c);
    }
    if single.None? {
      single := ObjectEndToken(c);
    }
    if single.Some? {
      return Success(single);
    }
    var key := ProduceRawKey(c, it);
    if key.value.Some? {
      return key;
    }
    var str := Lua.StringLogic(c, it);
    if str.value.Some? {
      return Success(Some(StringToken(str.value.value)));
    }
    var number := ProduceLong(c, it);
    if number.Failure? {
      return Failure(number.error);
    }
    if number.value.Some? {
      return Success(Some(LongToken(number.value.value)));
    }
    var word := Lua.ProduceBoolean(c, it);
    if word.value.Some? {
      return Success(Some(BooleanToken(word.value.value)));
    }
    r := Success(None);
  }

  /** tokenize2: the tokens of the whole text, in source order, or the exception that stopped it. */
  method Tokenize2(s: string) returns (r: Result<seq<Token>, Lua.LexError>)
    ensures r == Lex(s, 0)
  {
    var tokens: seq<Token> := [];
    var it := new SeqIterator(s);
    Lua.PrependNothing(Lex(s, 0));
    while it.HasNext()
      invariant it.Valid() && it.items == s
      invariant Lex(s, 0) == Lua.PrependAll(tokens, Lex(s, it.cursor))
      decreases |s| - it.cursor
    {
      var c := it.Next();
      var token := Produce(c.value, it);
      if token.Failure? {
        return Failure(token.error);
      }
      if token.value.Some? {
        Lua.PrependAllTwice(tokens, [token.value.value], Lex(s, it.cursor));
        tokens := tokens + [token.value.value];
      }
    }
    assert tokens + [] == tokens;
    r := Success(tokens);
  }
}

/**
 * How tokenize2 treats each kind of text it meets, one token at a time.
 *
 * LexIgnored, LexPunctuation, StringTokenAt, LexString and WordTokenAt state for
 * tokenize2's own Lex, TokenAt and Token type what the lemmas of the same names in
 * LuaTokenizerFacts state for tokenize: the two tokenizers skip, punctuate, read
 * strings and read words alike, but their results are different token types, so each
 * needs its own statement. Where they part is RawKeyTokenAt and LexOpenKey (a key is
 * the raw text up to ']', quotes included, instead of a quoted or numeric key) and
 * LongTokenAt (a number is a Long, instead of a decimal).
 */
module LegacyTokenizerFacts {
  import opened Wrappers
  import opened Text
  import opened Cursor
  import Lua = LuaTokenizer
  import opened LuaTokenizerFacts
  import opened LegacyTokenizer

  lemma LexIgnored(s: string, i: nat)
    requires i < |s| && Ignored(s[i])
    ensures Lex(s, i) == Lex(s, i + 1)
  {
    TokenAtOther(s, i + 1);
    LexDecline(s, i);
  }

  lemma LexPunctuation(s: string, i: nat)
    requires i < |s|
    ensures s[i] == '=' ==> Lex(s, i) == Lua.PrependAll([Assignment], Lex(s, i + 1))
    ensures s[i] == '{' ==> Lex(s, i) == Lua.PrependAll([ObjectStart], Lex(s, i + 1))
    ensures s[i] == '}' ==> Lex(s, i) == Lua.PrependAll([ObjectEnd], Lex(s, i + 1))
  {
    if s[i] in "={}" {
      TokenAtPunctuation(s, i + 1);
      var t := if s[i] == '=' then Assignment else if s[i] == '{' then ObjectStart else ObjectEnd;
      LexEmit(s, i, t, i + 1);
    }
  }

  /** The key producer on `[` + k + `]`: the key is k verbatim, quotes and all. */
  lemma {:induction false} RawKeyTokenAt(s: string, i: nat, k: string)
    requires OccursAt(s, "[" + k + "]", i)
    requires forall x :: x in k ==> x != ']'
    ensures TokenAt(s, i + 1) == Lua.Emit(Key(k), i + |k| + 2)
  {
    var w := "[" + k + "]";
    var j := i + 1;
    var e := j + |k|;
    assert s[i] == '[' by { assert s[i] == s[i..i + |w|][0]; }
    TokenAtKey(s, j);
    forall m | j <= m < e ensures NotBracket(s[m]) {
      assert s[m] == s[i..i + |w|][m - i] == k[m - j];
      assert k[m - j] in k;
    }
    assert s[e] == ']' by { assert s[e] == s[i..i + |w|][|k| + 1]; }
    RunLengthIs(s, j, NotBracket, e);
    SliceOf(s, w, i, 1, |k| + 1);
    assert w[1..|k| + 1] == k;
  }

  lemma LexRawKey(s: string, i: nat, k: string)
    requires OccursAt(s, "[" + k + "]", i)
    requires forall x :: x in k ==> x != ']'
    ensures Lex(s, i) == Lua.PrependAll([Key(k)], Lex(s, i + |k| + 2))
  {
    RawKeyTokenAt(s, i, k);
    LexEmit(s, i, Key(k), i + |k| + 2);
  }

  /** A '[' with no ']' after it: the rest of the text is the key, and tokenize2 ends. */
  lemma LexOpenKey(s: string, i: nat)
    requires i < |s| && s[i] == '['
    requires forall m :: i < m < |s| ==> s[m] != ']'
    ensures Lex(s, i) == Success([Key(s[i + 1..])])
  {
    TokenAtKey(s, i + 1);
    forall m | i + 1 <= m < |s| ensures NotBracket(s[m]) {
    }
    RunLengthIs(s, i + 1, NotBracket, |s|);
    assert s[i + 1..i + 1 + RunLength(s, i + 1, NotBracket)] == s[i + 1..];
    assert RawKeyAt(s, i + 1) == Lua.Emit(Key(s[i + 1..]), |s|);
    LexEmit(s, i, Key(s[i + 1..]), |s|);
    assert [Key(s[i + 1..])] + [] == [Key(s[i + 1..])];
  }

  /** A string: every character up to the next '"', as in the current tokenizer. */
  lemma {:induction false} StringTokenAt(s: string, i: nat, str: string)
    requires OccursAt(s, "\"" + str + "\"", i)
    requires forall x :: x in str ==> x != '"'
    ensures TokenAt(s, i + 1) == Lua.Emit(StringToken(str), i + |str| + 2)
  {
    var w := "\"" + str + "\"";
    var j := i + 1;
    var e := j + |str|;
    assert s[i] == '"' by { assert s[i] == s[i..i + |w|][0]; }
    TokenAtString(s, j);
    forall k | j <= k < e ensures Lua.NotQuote(s[k]) {
      assert s[k] == s[i..i + |w|][k - i] == str[k - j];
      assert str[k - j] in str;
    }
    assert s[e] == '"' by { assert s[e] == s[i..i + |w|][|str| + 1]; }
    RunLengthIs(s, j, Lua.NotQuote, e);
    SliceOf(s, w, i, 1, |str| + 1);
    assert w[1..|str| + 1] == str;
    assert Lua.StringAt(s, j) == Lua.Emit(str, e + 1);
  }

  lemma LexString(s: string, i: nat, str: string)
    requires OccursAt(s, "\"" + str + "\"", i)
    requires forall x :: x in str ==> x != '"'
    ensures Lex(s, i) == Lua.PrependAll([StringToken(str)], Lex(s, i + |str| + 2))
  {
    StringTokenAt(s, i, str);
    LexEmit(s, i, StringToken(str), i + |str| + 2);
  }

  /** What the number producer makes of a lexeme: its Long, or the NumberFormatException. */
  lemma LongTokenAt(s: string, i: nat, lex: string)
    requires OccursAt(s, lex, i) && NumberShape(lex)
    requires RunEnds(s, i + |lex|, Lua.NumberChar)
    requires i + |lex| == |s| ==> IsDigit(lex[|lex| - 1])
    ensures ParseLong(lex).Some? ==> TokenAt(s, i + 1) == Lua.Emit(LongToken(ParseLong(lex).value), i + |lex|)
    ensures ParseLong(lex).None? ==> TokenAt(s, i + 1) == Lua.Fail(Lua.NumberFormat(lex))
  {
    NumberAtLexeme(s, i, lex);
    assert s[i] == lex[0] by { assert s[i] == s[i..i + |lex|][0]; }
    TokenAtNumber(s, i + 1);
  }

  lemma LexLong(s: string, i: nat, lex: string, x: int)
    requires OccursAt(s, lex, i) && NumberShape(lex) && ParseLong(lex) == Some(x)
    requires RunEnds(s, i + |lex|, Lua.NumberChar)
    requires i + |lex| == |s| ==> IsDigit(lex[|lex| - 1])
    ensures Lex(s, i) == Lua.PrependAll([LongToken(x)], Lex(s, i + |lex|))
  {
    LongTokenAt(s, i, lex);
    LexEmit(s, i, LongToken(x), i + |lex|);
  }

  /** A lexeme toLong rejects stops tokenize2 with NumberFormatException, wherever it ends. */
  lemma LexBadLong(s: string, i: nat, lex: string)
    requires OccursAt(s, lex, i) && NumberShape(lex) && ParseLong(lex).None?
    requires RunEnds(s, i + |lex|, Lua.NumberChar)
    ensures Lex(s, i) == Failure(Lua.NumberFormat(lex))
  {
    if i + |lex| == |s| && !IsDigit(lex[|lex| - 1]) {
      NumberAtLexeme(s, i, lex);
      assert s[i] == lex[0] by { assert s[i] == s[i..i + |lex|][0]; }
      TokenAtNumber(s, i + 1);
    } else {
      LongTokenAt(s, i, lex);
    }
    LexThrow(s, i, Lua.NumberFormat(lex));
  }

  /** toLong rejects every lexeme with a '.' in it. */
  lemma DotNotLong(lex: string)
    requires '.' in lex
    ensures ParseLong(lex).None?
  {
    var k :| 0 <= k < |lex| && lex[k] == '.';
    var body := if |lex| > 0 && (lex[0] == '-' || lex[0] == '+') then lex[1..] else lex;
    if |body| < |lex| {
      if k > 0 {
        assert body[k - 1] == '.';
      }
    } else {
      assert body[k] == '.';
    }
  }

  lemma LexDotted(s: string, i: nat, lex: string)
    requires OccursAt(s, lex, i) && NumberShape(lex) && '.' in lex
    requires RunEnds(s, i + |lex|, Lua.NumberChar)
    ensures Lex(s, i) == Failure(Lua.NumberFormat(lex))
  {
    DotNotLong(lex);
    LexBadLong(s, i, lex);
  }

  /** Long.toString read back: the same Long, whatever follows that does not extend the run. */
  lemma LexRenderedLong(s: string, i: nat, x: int)
    requires LONG_MIN <= x <= LONG_MAX && OccursAt(s, LongToString(x), i)
    requires RunEnds(s, i + |LongToString(x)|, Lua.NumberChar)
    ensures Lex(s, i) == Lua.PrependAll([LongToken(x)], Lex(s, i + |LongToString(x)|))
  {
    var r := LongToString(x);
    LongShape(x);
    assert NumberShape(r) && IsDigit(r[|r| - 1]);
    ParseLongToString(x);
    LexLong(s, i, r, x);
  }

  /** Long.toString writes a number lexeme that ends in a digit. */
  lemma LongShape(x: int)
    ensures NumberShape(LongToString(x)) && IsDigit(LongToString(x)[|LongToString(x)| - 1])
  {
    var r := LongToString(x);
    if x < 0 {
      var t := NatToString(-x);
      assert r == "-" + t;
      forall k | 1 <= k < |r| ensures Lua.NumberChar(r[k]) {
        assert r[k] == t[k - 1];
      }
      assert r[|r| - 1] == t[|t| - 1];
    }
  }

  /** The word producer on a run of letters: BooleanToken of its toBoolean, never an error. */
  lemma {:induction false} WordTokenAt(s: string, i: nat, w: string)
    requires OccursAt(s, w, i) && |w| > 0 && forall k :: 0 <= k < |w| ==> IsLetter(w[k])
    requires RunEnds(s, i + |w|, IsLetter)
    ensures TokenAt(s, i + 1) == Lua.Emit(BooleanToken(Lua.ToBoolean(w)), i + |w|)
  {
    var j := i + 1;
    var e := i + |w|;
    forall m | i <= m < e ensures s[m] == w[m - i] {
      assert s[m] == s[i..e][m - i];
    }
    assert s[i] == w[0];
    TokenAtWord(s, j);
    RunLengthIs(s, j, IsLetter, e);
    assert s[i..e] == w;
    assert [s[i]] + s[j..e] == w;
    assert Lua.BooleanAt(s, j) == Lua.Emit(Lua.ToBoolean(w), e);
  }

  lemma LexWord(s: string, i: nat, w: string)
    requires OccursAt(s, w, i) && |w| > 0 && forall k :: 0 <= k < |w| ==> IsLetter(w[k])
    requires RunEnds(s, i + |w|, IsLetter)
    ensures Lex(s, i) == Lua.PrependAll([BooleanToken(Lua.ToBoolean(w))], Lex(s, i + |w|))
  {
    WordTokenAt(s, i, w);
    LexEmit(s, i, BooleanToken(Lua.ToBoolean(w)), i + |w|);
  }
}
