/**
 * The current Lua-table tokenizer. A shared list iterator walks the characters;
 * for each character read, the producers are tried in a fixed order (`=`, `{`,
 * `}`, `[`, `"`, number, word) and the first that accepts it may read further
 * or push one character back. A character no producer accepts is dropped.
 *
 * Each producer has a specification function over the text and the cursor
 * position just after its first character (`...At`), and a method over the
 * iterator that is proved to follow it.
 */
module LuaTokenizer {
  import opened Wrappers
  import opened Text
  import opened Decimal
  import opened Cursor

  datatype Token =
    | StringToken(s: string)
    | DoubleToken(l: Decimal)
    | BooleanToken(b: bool)
    | ObjectStart
    | ObjectEnd
    | Key(key: string)
    | Assignment

  /** The exceptions tokenize lets escape: NumberFormatException (with its lexeme) and NoSuchElementException. */
  datatype LexError = NumberFormat(lexeme: string) | NoSuchElement

  /** A producer declines (returns null), emits a value leaving the cursor at `next`, or throws. */
  datatype Produced<T> = NoMatch | Emit(value: T, next: nat) | Fail(error: LexError) {

    /** Kotlin's `?:` between two producers. */
    function OrElse(other: Produced<T>): Produced<T> {
      if NoMatch? then other else this
    }

    function Map<U>(f: T -> U): Produced<U> {
      match this
      case NoMatch => NoMatch
      case Emit(v, n) => Emit(f(v), n)
      case Fail(e) => Fail(e)
    }

    /** What the producer call itself returns: a nullable value, or the exception. */
    function Outcome(): Result<Option<T>, LexError> {
      match this
      case NoMatch => Success(None)
      case Emit(v, _) => Success(Some(v))
      case Fail(e) => Failure(e)
    }

    /** The cursor a producer call leaves behind, given where it started. */
    predicate LeavesAt(start: nat, cursor: nat) {
      (NoMatch? ==> cursor == start) && (Emit? ==> cursor == next)
    }
  }

  predicate NotQuote(c: char) {
    c != '"'
  }

  predicate NumberChar(c: char) {
    IsDigit(c) || c == '.'
  }

  /** String.toBoolean: true exactly for "true" in any case; never an error. */
  function ToBoolean(w: string): (b: bool)
    ensures b <==> EqualsIgnoreCase(w, "true")
  {
    EqualsIgnoreCase(w, "true")
  }

  function AssignmentToken(c: char): Option<Token> {
    if c == '=' then Some(Assignment) else None
  }

  function ObjectStartToken(c: char): Option<Token> {
    if c == '{' then Some(ObjectStart) else None
  }

  function ObjectEndToken(c: char): Option<Token> {
    if c == '}' then Some(ObjectEnd) else None
  }

  /** A producer that reads nothing beyond its character. */
  function Here<T>(t: Option<T>, j: nat): Produced<T> {
    match t
    case None => NoMatch
    case Some(tok) => Emit(tok, j)
  }

  /**
   * stringLogic with c = s[j - 1]: on a '"', every character up to the next '"',
   * with no escapes; the closing quote is consumed. An unterminated string runs
   * to the end of the text.
   */
  function StringAt(s: string, j: nat): (r: Produced<string>)
    requires 0 < j <= |s|
    ensures !r.Fail?
    ensures r.Emit? ==> j <= r.next <= |s|
    ensures r.Emit? ==> forall x :: x in r.value ==> x != '"'
  {
    if s[j - 1] != '"' then NoMatch
    else Emit(s[j..j + RunLength(s, j, NotQuote)], AfterTakeWhile(s, j, NotQuote))
  }

  /** The text longLogic hands to toDouble: its first character and the run of digits and '.' after it. */
  function NumberLexeme(s: string, j: nat): string
    requires 0 < j <= |s|
  {
    [s[j - 1]] + s[j..j + RunLength(s, j, NumberChar)]
  }

  /**
   * longLogic with c = s[j - 1]: on a digit or '-', the lexeme goes through
   * toDouble; a malformed lexeme throws. The character that ends the run is
   * pushed back, and so is a '.' that ends the text.
   */
  function NumberAt(s: string, j: nat): (r: Produced<Decimal>)
    requires 0 < j <= |s|
    ensures r.Emit? ==> j <= r.next <= |s| && Canonical(r.value)
    ensures r.Fail? ==> r.error == NumberFormat(NumberLexeme(s, j))
  {
    var c := s[j - 1];
    if !(IsDigit(c) || c == '-') then NoMatch
    else
      match ParseDouble(NumberLexeme(s, j))
      case None => Fail(NumberFormat(NumberLexeme(s, j)))
      case Some(x) =>
        Emit(x, AfterPushBack(s, j, NumberChar, IsDigit))
  }

  /** booleanToken with c = s[j - 1]: a letter starts a word, whose toBoolean is the token. */
  function BooleanAt(s: string, j: nat): (r: Produced<bool>)
    requires 0 < j <= |s|
    ensures !r.Fail?
    ensures r.Emit? ==> j <= r.next <= |s|
  {
    if !IsLetter(s[j - 1]) then NoMatch
    else Emit(ToBoolean([s[j - 1]] + s[j..j + RunLength(s, j, IsLetter)]), AfterPushBack(s, j, IsLetter, IsLetter))
  }

  /**
   * The name inside a key, read from k = one past the character after '[': a
   * quoted string, the Double rendering of a number, or "null" for anything
   * else (the nullable toString of a missing number), which reads nothing more.
   */
  function KeyName(s: string, k: nat): (r: Result<(string, nat), LexError>)
    requires 0 < k <= |s|
    ensures r.Success? ==> k <= r.value.1 <= |s|
  {
    var str := StringAt(s, k);
    if str.Emit? then Success((str.value, str.next))
    else
      match NumberAt(s, k)
      case Emit(x, n) => Success((DoubleToString(x), n))
      case Fail(e) => Failure(e)
      case NoMatch => Success(("null", k))
  }

  /** keyTokenProducer with c = s[j - 1]: '[', a name, and one more character consumed for the ']'. */
  function KeyAt(s: string, j: nat): (r: Produced<Token>)
    requires 0 < j <= |s|
    ensures r.Emit? ==> j <= r.next <= |s|
  {
    if s[j - 1] != '[' then NoMatch
    else if j == |s| then Fail(NoSuchElement)
    else
      match KeyName(s, j + 1)
      case Failure(e) => Fail(e)
      case Success((name, n)) => if n == |s| then Fail(NoSuchElement) else Emit(Key(name), n + 1)
  }

  /** The token each value-reading producer wraps its value in. */
  function AsString(x: string): Token { StringToken(x) }
  function AsDouble(x: Decimal): Token { DoubleToken(x) }
  function AsBoolean(x: bool): Token { BooleanToken(x) }

  /** The seven producers. */
  datatype Producer =
    | AssignmentProducer
    | ObjectStartProducer
    | ObjectEndProducer
    | KeyProducer
    | StringProducer
    | LongProducer
    | BooleanProducer

  /** The order in which tokenize tries them. */
  const PRODUCERS: seq<Producer> := [AssignmentProducer, ObjectStartProducer, ObjectEndProducer,
                                     KeyProducer, StringProducer, LongProducer, BooleanProducer]

  /** One producer's `produce(c, iterator)`, with c = s[j - 1]. */
  function ProducerAt(p: Producer, s: string, j: nat): (r: Produced<Token>)
    requires 0 < j <= |s|
    ensures r.Emit? ==> j <= r.next <= |s|
  {
    match p
    case AssignmentProducer => Here(AssignmentToken(s[j - 1]), j)
    case ObjectStartProducer => Here(ObjectStartToken(s[j - 1]), j)
    case ObjectEndProducer => Here(ObjectEndToken(s[j - 1]), j)
    case KeyProducer => KeyAt(s, j)
    case StringProducer => StringAt(s, j).Map(AsString)
    case LongProducer => NumberAt(s, j).Map(AsDouble)
    case BooleanProducer => BooleanAt(s, j).Map(AsBoolean)
  }

  /** The producers chained with `?:`: the first that does not decline wins. */
  function FirstOf(ps: seq<Producer>, s: string, j: nat): (r: Produced<Token>)
    requires 0 < j <= |s|
    ensures r.Emit? ==> j <= r.next <= |s|
  {
    if ps == [] then NoMatch else ProducerAt(ps[0], s, j).OrElse(FirstOf(ps[1..], s, j))
  }

  function TokenAt(s: string, j: nat): (r: Produced<Token>)
    requires 0 < j <= |s|
    ensures r.Emit? ==> j <= r.next <= |s|
  {
    FirstOf(PRODUCERS, s, j)
  }

  /** The chain written out, producer by producer. */
  lemma TokenAtChain(s: string, j: nat)
    requires 0 < j <= |s|
    ensures TokenAt(s, j) ==
      Here(AssignmentToken(s[j - 1]), j).OrElse(
      Here(ObjectStartToken(s[j - 1]), j).OrElse(
      Here(ObjectEndToken(s[j - 1]), j).OrElse(
      KeyAt(s, j).OrElse(
      StringAt(s, j).Map(AsString).OrElse(
      NumberAt(s, j).Map(AsDouble).OrElse(
      BooleanAt(s, j).Map(AsBoolean).OrElse(NoMatch)))))))
  {
    var ps := PRODUCERS;
    assert ps[1..] == [ObjectStartProducer, ObjectEndProducer, KeyProducer, StringProducer, LongProducer, BooleanProducer];
    assert ps[2..] == ps[1..][1..];
    assert ps[3..] == ps[2..][1..];
    assert ps[4..] == ps[3..][1..];
    assert ps[5..] == ps[4..][1..];
    assert ps[6..] == ps[5..][1..];
    assert ps[7..] == ps[6..][1..] == [];
    assert FirstOf(ps[6..], s, j) == BooleanAt(s, j).Map(AsBoolean).OrElse(NoMatch);
    assert FirstOf(ps[5..], s, j) == NumberAt(s, j).Map(AsDouble).OrElse(FirstOf(ps[6..], s, j));
    assert FirstOf(ps[4..], s, j) == StringAt(s, j).Map(AsString).OrElse(FirstOf(ps[5..], s, j));
    assert FirstOf(ps[3..], s, j) == KeyAt(s, j).OrElse(FirstOf(ps[4..], s, j));
    assert FirstOf(ps[2..], s, j) == Here(ObjectEndToken(s[j - 1]), j).OrElse(FirstOf(ps[3..], s, j));
    assert FirstOf(ps[1..], s, j) == Here(ObjectStartToken(s[j - 1]), j).OrElse(FirstOf(ps[2..], s, j));
  }

  /** Which producer answers, by the class of the character read. */
  lemma TokenAtPunctuation(s: string, j: nat)
    requires 0 < j <= |s| && s[j - 1] in "={}"
    ensures s[j - 1] == '=' ==> TokenAt(s, j) == Emit(Assignment, j)
    ensures s[j - 1] == '{' ==> TokenAt(s, j) == Emit(ObjectStart, j)
    ensures s[j - 1] == '}' ==> TokenAt(s, j) == Emit(ObjectEnd, j)
  {
    TokenAtChain(s, j);
  }

  lemma TokenAtKey(s: string, j: nat)
    requires 0 < j <= |s| && s[j - 1] == '['
    ensures TokenAt(s, j) == KeyAt(s, j)
  {
    TokenAtChain(s, j);
  }

  lemma TokenAtString(s: string, j: nat)
    requires 0 < j <= |s| && s[j - 1] == '"'
    ensures TokenAt(s, j) == StringAt(s, j).Map(AsString)
  {
    TokenAtChain(s, j);
  }

  lemma TokenAtNumber(s: string, j: nat)
    requires 0 < j <= |s| && (IsDigit(s[j - 1]) || s[j - 1] == '-')
    ensures TokenAt(s, j) == NumberAt(s, j).Map(AsDouble)
  {
    TokenAtChain(s, j);
  }

  lemma TokenAtWord(s: string, j: nat)
    requires 0 < j <= |s| && IsLetter(s[j - 1])
    ensures TokenAt(s, j) == BooleanAt(s, j).Map(AsBoolean)
  {
    TokenAtChain(s, j);
  }

  /** Every other character is declined by all seven producers. */
  lemma TokenAtOther(s: string, j: nat)
    requires 0 < j <= |s|
    requires !(s[j - 1] in "={}[\"" || IsDigit(s[j - 1]) || s[j - 1] == '-' || IsLetter(s[j - 1]))
    ensures TokenAt(s, j) == NoMatch
  {
    TokenAtChain(s, j);
  }

  /** Tokens ahead of a result; a failure stays a failure. */
  function PrependAll<T>(ts: seq<T>, r: Result<seq<T>, LexError>): Result<seq<T>, LexError> {
    match r
    case Success(rest) => Success(ts + rest)
    case Failure(e) => Failure(e)
  }

  /** The tokens of s from cursor i on, in source order, or the exception that stops tokenize. */
  function Lex(s: string, i: nat): Result<seq<Token>, LexError>
    requires i <= |s|
    decreases |s| - i
  {
    if i == |s| then Success([])
    else
      match TokenAt(s, i + 1)
      case NoMatch => Lex(s, i + 1)
      case Emit(t, n) => PrependAll([t], Lex(s, n))
      case Fail(e) => Failure(e)
  }

  /** One step of Lex, by what the producers make of the character at i. */
  lemma LexEmit(s: string, i: nat, t: Token, n: nat)
    requires i < |s| && TokenAt(s, i + 1) == Emit(t, n)
    ensures n <= |s| && Lex(s, i) == PrependAll([t], Lex(s, n))
  {
  }

  lemma LexDecline(s: string, i: nat)
    requires i < |s| && TokenAt(s, i + 1) == NoMatch
    ensures Lex(s, i) == Lex(s, i + 1)
  {
  }

  lemma LexThrow(s: string, i: nat, e: LexError)
    requires i < |s| && TokenAt(s, i + 1) == Fail(e)
    ensures Lex(s, i) == Failure(e)
  {
  }

  lemma PrependAllTwice<T>(a: seq<T>, b: seq<T>, r: Result<seq<T>, LexError>)
    ensures PrependAll(a, PrependAll(b, r)) == PrependAll(a + b, r)
  {
    if r.Success? {
      assert a + (b + r.value) == (a + b) + r.value;
    }
  }

  lemma PrependNothing<T>(r: Result<seq<T>, LexError>)
    ensures PrependAll([], r) == r
  {
    if r.Success? {
      assert [] + r.value == r.value;
    }
  }

  method StringLogic(c: char, it: SeqIterator<char>) returns (r: Result<Option<string>, LexError>)
    requires it.Valid() && 0 < it.cursor && c == it.items[it.cursor - 1]
    modifies it`cursor
    ensures it.Valid()
    ensures r == StringAt(it.items, old(it.cursor)).Outcome()
    ensures StringAt(it.items, old(it.cursor)).LeavesAt(old(it.cursor), it.cursor)
  {
    if c == '"' {
      var s := it.TakeWhile(NotQuote);
      r := Success(Some(s));
    } else {
      r := Success(None);
    }
  }

  method LongLogic(c: char, it: SeqIterator<char>) returns (r: Result<Option<Decimal>, LexError>)
    requires it.Valid() && 0 < it.cursor && c == it.items[it.cursor - 1]
    modifies it`cursor
    ensures it.Valid()
    ensures r == NumberAt(it.items, old(it.cursor)).Outcome()
    ensures NumberAt(it.items, old(it.cursor)).LeavesAt(old(it.cursor), it.cursor)
  {
    if IsDigit(c) || c == '-' {
      var run := it.RunThenPushBack(NumberChar, IsDigit);
      var lexeme := [c] + run;
      assert lexeme == NumberLexeme(it.items, old(it.cursor));
      match ParseDouble(lexeme)
      case None => r := Failure(NumberFormat(lexeme));
      case Some(x) => r := Success(Some(x));
    } else {
      r := Success(None);
    }
  }

  method ProduceKey(c: char, it: SeqIterator<char>) returns (r: Result<Option<Token>, LexError>)
    requires it.Valid() && 0 < it.cursor && c == it.items[it.cursor - 1]
    modifies it`cursor
    ensures it.Valid()
    ensures r == KeyAt(it.items, old(it.cursor)).Outcome()
    ensures KeyAt(it.items, old(it.cursor)).LeavesAt(old(it.cursor), it.cursor)
  {
    if c != '[' {
      return Success(None);
    }
    var nextC := it.Next();
    if nextC.None? {
      return Failure(NoSuchElement);
    }
    var str := StringLogic(nextC.value, it);
    var name: string;
    if str.value.Some? {
      name := str.value.value;
    } else {
      var number := LongLogic(nextC.value, it);
      if number.Failure? {
        return Failure(number.error);
      }
      name := match number.value
        case Some(x) => DoubleToString(x)
        case None => "null";
    }
    var closing := it.Next();
    if closing.None? {
      return Failure(NoSuchElement);
    }
    r := Success(Some(Key(name)));
  }

  method ProduceBoolean(c: char, it: SeqIterator<char>) returns (r: Result<Option<bool>, LexError>)
    requires it.Valid() && 0 < it.cursor && c == it.items[it.cursor - 1]
    modifies it`cursor
    ensures it.Valid()
    ensures r == BooleanAt(it.items, old(it.cursor)).Outcome()
    ensures BooleanAt(it.items, old(it.cursor)).LeavesAt(old(it.cursor), it.cursor)
  {
    if IsLetter(c) {
      var run := it.RunThenPushBack(IsLetter, IsLetter);
      r := Success(Some(ToBoolean([c] + run)));
    } else {
      r := Success(None);
    }
  }

  /** The producer chain for one character already read. */
  method Produce(c: char, it: SeqIterator<char>) returns (r: Result<Option<Token>, LexError>)
    requires it.Valid() && 0 < it.cursor && c == it.items[it.cursor - 1]
    modifies it`cursor
    ensures it.Valid()
    ensures r == TokenAt(it.items, old(it.cursor)).Outcome()
    ensures TokenAt(it.items, old(it.cursor)).LeavesAt(old(it.cursor), it.cursor)
  {
    TokenAtChain(it.items, it.cursor);
    var single := AssignmentToken(c);
    if single.None? {
      single := ObjectStartToken(c);
    }
    if single.None? {
      single := ObjectEndToken(c);
    }
    if single.Some? {
      return Success(single);
    }
    var key := ProduceKey(c, it);
    if key.Failure? || key.value.Some? {
      return key;
    }
    var str := StringLogic(c, it);
    if str.value.Some? {
      return Success(Some(StringToken(str.value.value)));
    }
    var number := LongLogic(c, it);
    if number.Failure? {
      return Failure(number.error);
    }
    if number.value.Some? {
      return Success(Some(DoubleToken(number.value.value)));
    }
    var word := ProduceBoolean(c, it);
    if word.value.Some? {
      return Success(Some(BooleanToken(word.value.value)));
    }
    r := Success(None);
  }

  /** tokenize: the tokens of the whole text, in source order, or the exception that stopped it. */
  method Tokenize(s: string) returns (r: Result<seq<Token>, LexError>)
    ensures r == Lex(s, 0)
  {
    var tokens: seq<Token> := [];
    var it := new SeqIterator(s);
    PrependNothing(Lex(s, 0));
    while it.HasNext()
      invariant it.Valid() && it.items == s
      invariant Lex(s, 0) == PrependAll(tokens, Lex(s, it.cursor))
      decreases |s| - it.cursor
    {
      var c := it.Next();
      var token := Produce(c.value, it);
      if token.Failure? {
        return Failure(token.error);
      }
      if token.value.Some? {
        PrependAllTwice(tokens, [token.value.value], Lex(s, it.cursor));
        tokens := tokens + [token.value.value];
      }
    }
    assert tokens + [] == tokens;
    r := Success(tokens);
  }
}

/**
 * How tokenize treats each kind of text it meets, one token at a time, and what
 * follows from that: the examples of the tokenizer's tests, and the round trip
 * from rendered tokens back to the same tokens. LegacyTokenizerFacts restates the
 * skipping, punctuation, string and word lemmas for the older tokenizer's token type;
 * the key and number lemmas here have no counterpart there, as its keys are raw text
 * and its numbers Longs.
 */
module LuaTokenizerFacts {
  import opened Wrappers
  import opened Text
  import opened Decimal
  import opened Cursor
  import opened LuaTokenizer

  /** A character no producer accepts: tokenize reads and drops it. */
  predicate Ignored(c: char) {
    !(c == '=' || c == '{' || c == '}' || c == '[' || c == '"' || IsDigit(c) || c == '-' || IsLetter(c))
  }

  /** A valid number lexeme: a digit or '-', then digits and '.'. */
  predicate NumberShape(lex: string) {
    |lex| > 0 && (IsDigit(lex[0]) || lex[0] == '-') && forall k :: 1 <= k < |lex| ==> NumberChar(lex[k])
  }

  /** The number lexeme at i ends at e: e is the end of the text or holds a character outside the run. */
  predicate RunEnds(s: string, e: nat, p: char -> bool) {
    e <= |s| && (e < |s| ==> !p(s[e]))
  }

  lemma LexIgnored(s: string, i: nat)
    requires i < |s| && Ignored(s[i])
    ensures Lex(s, i) == Lex(s, i + 1)
  {
    TokenAtOther(s, i + 1);
    LexDecline(s, i);
  }

  lemma LexPunctuation(s: string, i: nat)
    requires i < |s|
    ensures s[i] == '=' ==> Lex(s, i) == PrependAll([Assignment], Lex(s, i + 1))
    ensures s[i] == '{' ==> Lex(s, i) == PrependAll([ObjectStart], Lex(s, i + 1))
    ensures s[i] == '}' ==> Lex(s, i) == PrependAll([ObjectEnd], Lex(s, i + 1))
  {
    if s[i] in "={}" {
      TokenAtPunctuation(s, i + 1);
      var t := if s[i] == '=' then Assignment else if s[i] == '{' then ObjectStart else ObjectEnd;
      LexEmit(s, i, t, i + 1);
    }
  }

  /** The string producer on a quoted string with no quote inside. */
  lemma {:induction false} StringTokenAt(s: string, i: nat, str: string)
    requires OccursAt(s, "\"" + str + "\"", i)
    requires forall x :: x in str ==> x != '"'
    ensures TokenAt(s, i + 1) == Emit(StringToken(str), i + |str| + 2)
  {
    var w := "\"" + str + "\"";
    var j := i + 1;
    var e := j + |str|;
    assert s[i] == '"' by { assert s[i] == s[i..i + |w|][0]; }
    TokenAtString(s, j);
    forall k | j <= k < e ensures NotQuote(s[k]) {
      assert s[k] == s[i..i + |w|][k - i] == str[k - j];
      assert str[k - j] in str;
    }
    assert s[e] == '"' by { assert s[e] == s[i..i + |w|][|str| + 1]; }
    RunLengthIs(s, j, NotQuote, e);
    SliceOf(s, w, i, 1, |str| + 1);
    assert w[1..|str| + 1] == str;
    assert StringAt(s, j) == Emit(str, e + 1);
  }

  lemma LexString(s: string, i: nat, str: string)
    requires OccursAt(s, "\"" + str + "\"", i)
    requires forall x :: x in str ==> x != '"'
    ensures Lex(s, i) == PrependAll([StringToken(str)], Lex(s, i + |str| + 2))
  {
    StringTokenAt(s, i, str);
    LexEmit(s, i, StringToken(str), i + |str| + 2);
  }

  /** A slice of an occurrence is a slice of the text. */
  lemma SliceOf(s: string, w: string, i: nat, a: nat, b: nat)
    requires OccursAt(s, w, i) && a <= b <= |w|
    ensures s[i + a..i + b] == w[a..b]
  {
    forall m | 0 <= m < b - a ensures s[i + a..i + b][m] == w[a..b][m] {
      assert s[i + a + m] == s[i..i + |w|][a + m];
    }
  }

  /** The key producer on `["key"]`. */
  lemma {:induction false} KeyTokenAt(s: string, i: nat, key: string)
    requires OccursAt(s, "[\"" + key + "\"]", i)
    requires forall x :: x in key ==> x != '"'
    ensures TokenAt(s, i + 1) == Emit(Key(key), i + |key| + 4)
  {
    var w := "[\"" + key + "\"]";
    var k := i + 2;
    var e := k + |key|;
    assert s[i] == '[' && s[i + 1] == '"' by {
      assert s[i] == s[i..i + |w|][0] && s[i + 1] == s[i..i + |w|][1];
    }
    TokenAtKey(s, i + 1);
    forall m | k <= m < e ensures NotQuote(s[m]) {
      assert s[m] == s[i..i + |w|][m - i] == key[m - k];
      assert key[m - k] in key;
    }
    assert s[e] == '"' by { assert s[e] == s[i..i + |w|][|key| + 2]; }
    RunLengthIs(s, k, NotQuote, e);
    SliceOf(s, w, i, 2, |key| + 2);
    assert w[2..|key| + 2] == key;
    assert StringAt(s, k) == Emit(key, e + 1);
    assert KeyName(s, k) == Success((key, e + 1));
  }

  lemma LexKey(s: string, i: nat, key: string)
    requires OccursAt(s, "[\"" + key + "\"]", i)
    requires forall x :: x in key ==> x != '"'
    ensures Lex(s, i) == PrependAll([Key(key)], Lex(s, i + |key| + 4))
  {
    KeyTokenAt(s, i, key);
    LexEmit(s, i, Key(key), i + |key| + 4);
  }

  /** The number producer on a lexeme that ends where the run of digits and '.' ends. */
  lemma {:induction false} NumberAtLexeme(s: string, i: nat, lex: string)
    requires OccursAt(s, lex, i) && NumberShape(lex)
    requires RunEnds(s, i + |lex|, NumberChar)
    ensures NumberLexeme(s, i + 1) == lex
    ensures AfterPushBack(s, i + 1, NumberChar, IsDigit)
         == if i + |lex| < |s| || IsDigit(lex[|lex| - 1]) then i + |lex| else i + |lex| - 1
  {
    var j := i + 1;
    var e := i + |lex|;
    forall m | j <= m < e ensures NumberChar(s[m]) {
      assert s[m] == s[i..e][m - i] == lex[m - i];
    }
    RunLengthIs(s, j, NumberChar, e);
    assert s[i..e] == lex;
    assert [s[i]] + s[j..e] == s[i..e];
    if e == |s| {
      assert s[e - 1] == s[i..e][|lex| - 1];
    }
  }

  /** What the number producer makes of a lexeme: its double, or the NumberFormatException. */
  lemma NumberTokenAt(s: string, i: nat, lex: string)
    requires OccursAt(s, lex, i) && NumberShape(lex)
    requires RunEnds(s, i + |lex|, NumberChar)
    requires i + |lex| == |s| ==> IsDigit(lex[|lex| - 1])
    ensures ParseDouble(lex).Some? ==> TokenAt(s, i + 1) == Emit(DoubleToken(ParseDouble(lex).value), i + |lex|)
    ensures ParseDouble(lex).None? ==> TokenAt(s, i + 1) == Fail(NumberFormat(lex))
  {
    NumberAtLexeme(s, i, lex);
    assert s[i] == lex[0] by { assert s[i] == s[i..i + |lex|][0]; }
    TokenAtNumber(s, i + 1);
  }

  lemma LexNumber(s: string, i: nat, lex: string, d: Decimal)
    requires OccursAt(s, lex, i) && NumberShape(lex) && ParseDouble(lex) == Some(d)
    requires RunEnds(s, i + |lex|, NumberChar)
    requires i + |lex| == |s| ==> IsDigit(lex[|lex| - 1])
    ensures Lex(s, i) == PrependAll([DoubleToken(d)], Lex(s, i + |lex|))
  {
    NumberTokenAt(s, i, lex);
    LexEmit(s, i, DoubleToken(d), i + |lex|);
  }

  lemma LexBadNumber(s: string, i: nat, lex: string)
    requires OccursAt(s, lex, i) && NumberShape(lex) && ParseDouble(lex).None?
    requires RunEnds(s, i + |lex|, NumberChar)
    ensures Lex(s, i) == Failure(NumberFormat(lex))
  {
    if i + |lex| == |s| && !IsDigit(lex[|lex| - 1]) {
      NumberAtLexeme(s, i, lex);
      assert s[i] == lex[0] by { assert s[i] == s[i..i + |lex|][0]; }
      TokenAtNumber(s, i + 1);
    } else {
      NumberTokenAt(s, i, lex);
    }
    LexThrow(s, i, NumberFormat(lex));
  }

  /** The word producer on a run of letters. */
  lemma {:induction false} WordTokenAt(s: string, i: nat, w: string)
    requires OccursAt(s, w, i) && |w| > 0 && forall k :: 0 <= k < |w| ==> IsLetter(w[k])
    requires RunEnds(s, i + |w|, IsLetter)
    ensures TokenAt(s, i + 1) == Emit(BooleanToken(ToBoolean(w)), i + |w|)
  {
    var j := i + 1;
    var e := i + |w|;
    forall m | i <= m < e ensures s[m] == w[m - i] {
      assert s[m] == s[i..e][m - i];
    }
    assert s[i] == w[0];
    TokenAtWord(s, j);
    RunLengthIs(s, j, IsLetter, e);
    assert s[i..e] == w;
    assert [s[i]] + s[j..e] == w;
    assert BooleanAt(s, j) == Emit(ToBoolean(w), e);
  }

  lemma LexWord(s: string, i: nat, w: string)
    requires OccursAt(s, w, i) && |w| > 0 && forall k :: 0 <= k < |w| ==> IsLetter(w[k])
    requires RunEnds(s, i + |w|, IsLetter)
    ensures Lex(s, i) == PrependAll([BooleanToken(ToBoolean(w))], Lex(s, i + |w|))
  {
    WordTokenAt(s, i, w);
    LexEmit(s, i, BooleanToken(ToBoolean(w)), i + |w|);
  }

  /** The key producer on `[` and a number: the key is the rendering of the double. */
  lemma NumberKeyTokenAt(s: string, i: nat, lex: string, d: Decimal)
    requires i < |s| && s[i] == '[' && OccursAt(s, lex, i + 1)
    requires NumberShape(lex) && ParseDouble(lex) == Some(d)
    requires i + 1 + |lex| < |s| && RunEnds(s, i + 1 + |lex|, NumberChar)
    ensures TokenAt(s, i + 1) == Emit(Key(DoubleToString(d)), i + |lex| + 2)
  {
    NumberKeyName(s, i + 1, lex, d);
    TokenAtKey(s, i + 1);
  }

  /** The name read after `[` when a number follows. */
  lemma NumberKeyName(s: string, j: nat, lex: string, d: Decimal)
    requires OccursAt(s, lex, j) && NumberShape(lex) && ParseDouble(lex) == Some(d)
    requires j + |lex| < |s| && RunEnds(s, j + |lex|, NumberChar)
    ensures KeyName(s, j + 1) == Success((DoubleToString(d), j + |lex|))
  {
    var e := j + |lex|;
    NumberAtLexeme(s, j, lex);
    assert s[j] == lex[0] by { assert s[j] == s[j..e][0]; }
    assert NumberAt(s, j + 1) == Emit(d, e);
  }

  /** `[` and a number key: the rendering of the double, and one more character consumed. */
  lemma LexNumberKey(s: string, i: nat, lex: string, d: Decimal)
    requires i < |s| && s[i] == '[' && OccursAt(s, lex, i + 1)
    requires NumberShape(lex) && ParseDouble(lex) == Some(d)
    requires i + 1 + |lex| < |s| && RunEnds(s, i + 1 + |lex|, NumberChar)
    ensures Lex(s, i) == PrependAll([Key(DoubleToString(d))], Lex(s, i + |lex| + 2))
  {
    NumberKeyTokenAt(s, i, lex, d);
    LexEmit(s, i, Key(DoubleToString(d)), i + |lex| + 2);
  }

  /** `[` and a character that starts neither a string nor a number: the key is "null" and that character and the next one are consumed. */
  lemma LexNullKey(s: string, i: nat)
    requires i + 2 < |s| && s[i] == '['
    requires !(s[i + 1] == '"' || IsDigit(s[i + 1]) || s[i + 1] == '-')
    ensures Lex(s, i) == PrependAll([Key("null")], Lex(s, i + 3))
  {
    TokenAtKey(s, i + 1);
    assert KeyName(s, i + 2) == Success(("null", i + 2));
    LexEmit(s, i, Key("null"), i + 3);
  }

  /** `[` as the last character: next() finds nothing. */
  lemma LexKeyAtEnd(s: string)
    requires |s| > 0 && s[|s| - 1] == '['
    ensures Lex(s, |s| - 1) == Failure(NoSuchElement)
  {
    TokenAtKey(s, |s|);
    LexThrow(s, |s| - 1, NoSuchElement);
  }

  /** The canonical Lua text of a token. */
  function TokenText(t: Token): (r: string)
    ensures |r| > 0
  {
    match t
    case StringToken(x) => "\"" + x + "\""
    case DoubleToken(d) => Render(d)
    case BooleanToken(b) => if b then "true" else "false"
    case ObjectStart => "{"
    case ObjectEnd => "}"
    case Key(k) => "[\"" + k + "\"]"
    case Assignment => "="
  }

  /** A token its canonical text can stand for: no quote inside a string or key, a canonical double. */
  predicate Writable(t: Token) {
    match t
    case StringToken(x) => forall c :: c in x ==> c != '"'
    case Key(k) => forall c :: c in k ==> c != '"'
    case DoubleToken(d) => Canonical(d)
    case _ => true
  }

  /** A piece of Lua text: a token in its canonical text, a number lexeme as written, or one ignored character. */
  datatype Piece = Tok(t: Token) | Num(lex: string) | Gap(c: char)

  function PieceText(p: Piece): (r: string)
    ensures |r| > 0
  {
    match p
    case Tok(t) => TokenText(t)
    case Num(lex) => if |lex| > 0 then lex else "0"
    case Gap(c) => [c]
  }

  function PieceTokens(p: Piece): seq<Token> {
    match p
    case Tok(t) => [t]
    case Num(lex) => if ParseDouble(lex).Some? then [DoubleToken(ParseDouble(lex).value)] else []
    case Gap(_) => []
  }

  predicate PieceOk(p: Piece) {
    match p
    case Tok(t) => Writable(t)
    case Num(lex) => NumberShape(lex) && IsDigit(lex[|lex| - 1]) && ParseDouble(lex).Some?
    case Gap(c) => Ignored(c)
  }

  predicate EndsNumber(p: Piece) {
    p.Num? || (p.Tok? && p.t.DoubleToken?)
  }

  predicate EndsWord(p: Piece) {
    p.Tok? && p.t.BooleanToken?
  }

  /** What may follow a piece: a number or a word must not run on into the next character. */
  predicate MayFollow(p: Piece, c: char) {
    (EndsNumber(p) ==> !NumberChar(c)) && (EndsWord(p) ==> !IsLetter(c))
  }

  /** Every piece is well formed and none runs on into the next. */
  predicate LayoutOk(ps: seq<Piece>) {
    ps == [] || (PieceOk(ps[0]) && (|ps| > 1 ==> MayFollow(ps[0], PieceText(ps[1])[0])) && LayoutOk(ps[1..]))
  }

  function Layout(ps: seq<Piece>): string {
    if ps == [] then "" else PieceText(ps[0]) + Layout(ps[1..])
  }

  function LayoutTokens(ps: seq<Piece>): seq<Token> {
    if ps == [] then [] else PieceTokens(ps[0]) + LayoutTokens(ps[1..])
  }

  /** Render writes a number lexeme that ends in a digit. */
  lemma RenderShape(d: Decimal)
    ensures NumberShape(Render(d)) && IsDigit(Render(d)[|Render(d)| - 1])
  {
    var sign := if d.negative then "-" else "";
    var ints := IntegerDigits(d);
    var frac := FractionDigits(d);
    var r := Render(d);
    assert r == sign + ints + "." + frac;
    forall k | 1 <= k < |r| ensures NumberChar(r[k]) {
      if k < |sign| + |ints| {
        assert r[k] == ints[k - |sign|];
      } else if k > |sign| + |ints| {
        assert r[k] == frac[k - |sign| - |ints| - 1];
      }
    }
    assert r[0] == if d.negative then '-' else ints[0];
    assert r[|r| - 1] == frac[|frac| - 1];
  }

  /** What the producers make of a token written in its canonical text. */
  lemma TokTokenAt(s: string, i: nat, t: Token)
    requires Writable(t) && OccursAt(s, TokenText(t), i)
    requires i + |TokenText(t)| < |s| ==> MayFollow(Tok(t), s[i + |TokenText(t)|])
    ensures TokenAt(s, i + 1) == Emit(t, i + |TokenText(t)|)
  {
    if t.StringToken? || t.Key? {
      QuotedTokenAt(s, i, t);
    } else if t.DoubleToken? {
      DoubleTokenAt(s, i, t);
    } else if t.BooleanToken? {
      BooleanTokenAt(s, i, t);
    } else {
      PunctuationTokenAt(s, i, t);
    }
  }

  lemma QuotedTokenAt(s: string, i: nat, t: Token)
    requires (t.StringToken? || t.Key?) && Writable(t) && OccursAt(s, TokenText(t), i)
    ensures TokenAt(s, i + 1) == Emit(t, i + |TokenText(t)|)
  {
    if t.StringToken? {
      StringTokenAt(s, i, t.s);
    } else {
      KeyTokenAt(s, i, t.key);
    }
  }

  lemma DoubleTokenAt(s: string, i: nat, t: Token)
    requires t.DoubleToken? && Writable(t) && OccursAt(s, TokenText(t), i)
    requires i + |TokenText(t)| < |s| ==> MayFollow(Tok(t), s[i + |TokenText(t)|])
    ensures TokenAt(s, i + 1) == Emit(t, i + |TokenText(t)|)
  {
    assert TokenText(t) == Render(t.l);
    RenderedTokenAt(s, i, t.l);
  }

  lemma BooleanTokenAt(s: string, i: nat, t: Token)
    requires t.BooleanToken? && OccursAt(s, TokenText(t), i)
    requires i + |TokenText(t)| < |s| ==> MayFollow(Tok(t), s[i + |TokenText(t)|])
    ensures TokenAt(s, i + 1) == Emit(t, i + |TokenText(t)|)
  {
    var w := TokenText(t);
    assert ToBoolean(w) == t.b;
    WordTokenAt(s, i, w);
  }

  lemma PunctuationTokenAt(s: string, i: nat, t: Token)
    requires t.ObjectStart? || t.ObjectEnd? || t.Assignment?
    requires OccursAt(s, TokenText(t), i)
    ensures TokenAt(s, i + 1) == Emit(t, i + |TokenText(t)|)
  {
    assert s[i] == TokenText(t)[0] by { assert s[i] == s[i..i + 1][0]; }
    TokenAtPunctuation(s, i + 1);
  }

  lemma RenderedTokenAt(s: string, i: nat, d: Decimal)
    requires Canonical(d) && OccursAt(s, Render(d), i)
    requires RunEnds(s, i + |Render(d)|, NumberChar)
    ensures TokenAt(s, i + 1) == Emit(DoubleToken(d), i + |Render(d)|)
  {
    var r := Render(d);
    RenderShape(d);
    assert NumberShape(r) && IsDigit(r[|r| - 1]);
    ParseRender(d);
    NumberTokenAt(s, i, r);
  }

  /** A double in its Double.toString text. */
  lemma LexRendered(s: string, i: nat, d: Decimal)
    requires Canonical(d) && OccursAt(s, Render(d), i)
    requires RunEnds(s, i + |Render(d)|, NumberChar)
    ensures Lex(s, i) == PrependAll([DoubleToken(d)], Lex(s, i + |Render(d)|))
  {
    RenderedTokenAt(s, i, d);
    LexEmit(s, i, DoubleToken(d), i + |Render(d)|);
  }

  /** A boolean written "true" or "false". */
  lemma LexBoolean(s: string, i: nat, b: bool)
    requires OccursAt(s, if b then "true" else "false", i)
    requires RunEnds(s, i + |if b then "true" else "false"|, IsLetter)
    ensures Lex(s, i) == PrependAll([BooleanToken(b)], Lex(s, i + |if b then "true" else "false"|))
  {
    var w := if b then "true" else "false";
    assert ToBoolean(w) == b;
    WordTokenAt(s, i, w);
    LexEmit(s, i, BooleanToken(b), i + |w|);
  }

  /** Lexing from the start of a piece: its tokens, then the lexing of what follows it. */
  lemma LexPiece(s: string, i: nat, p: Piece)
    requires PieceOk(p) && OccursAt(s, PieceText(p), i)
    requires i + |PieceText(p)| < |s| ==> MayFollow(p, s[i + |PieceText(p)|])
    ensures Lex(s, i) == PrependAll(PieceTokens(p), Lex(s, i + |PieceText(p)|))
  {
    if p.Gap? {
      LexGapPiece(s, i, p);
    } else if p.Num? {
      LexNumPiece(s, i, p);
    } else {
      LexTokPiece(s, i, p);
    }
  }

  lemma LexGapPiece(s: string, i: nat, p: Piece)
    requires p.Gap? && PieceOk(p) && OccursAt(s, PieceText(p), i)
    ensures Lex(s, i) == PrependAll(PieceTokens(p), Lex(s, i + |PieceText(p)|))
  {
    assert s[i] == p.c by { assert s[i] == s[i..i + 1][0]; }
    TokenAtOther(s, i + 1);
    LexDecline(s, i);
    PrependNothing(Lex(s, i + 1));
  }

  lemma LexNumPiece(s: string, i: nat, p: Piece)
    requires p.Num? && PieceOk(p) && OccursAt(s, PieceText(p), i)
    requires i + |PieceText(p)| < |s| ==> MayFollow(p, s[i + |PieceText(p)|])
    ensures Lex(s, i) == PrependAll(PieceTokens(p), Lex(s, i + |PieceText(p)|))
  {
    var lex := p.lex;
    assert PieceText(p) == lex;
    assert RunEnds(s, i + |lex|, NumberChar);
    NumberTokenAt(s, i, lex);
    LexEmit(s, i, DoubleToken(ParseDouble(lex).value), i + |lex|);
  }

  lemma LexTokPiece(s: string, i: nat, p: Piece)
    requires p.Tok? && PieceOk(p) && OccursAt(s, PieceText(p), i)
    requires i + |PieceText(p)| < |s| ==> MayFollow(p, s[i + |PieceText(p)|])
    ensures Lex(s, i) == PrependAll(PieceTokens(p), Lex(s, i + |PieceText(p)|))
  {
    var t := p.t;
    var n := i + |TokenText(t)|;
    TokTokenAt(s, i, t);
    LexEmit(s, i, t, n);
  }


  lemma LayoutTail(ps: seq<Piece>)
    requires ps != []
    ensures Layout(ps) == PieceText(ps[0]) + Layout(ps[1..])
    ensures LayoutTokens(ps) == PieceTokens(ps[0]) + LayoutTokens(ps[1..])
    ensures |ps| > 1 ==> Layout(ps[1..])[0] == PieceText(ps[1])[0]
    ensures |ps| == 1 ==> Layout(ps[1..]) == ""
  {
    if |ps| > 1 {
      assert ps[1..][0] == ps[1];
    }
  }

  /** Splitting the text that follows a position. */
  lemma SuffixParts(s: string, i: nat, w: string, rest: string)
    requires i <= |s| && s[i..] == w + rest
    ensures OccursAt(s, w, i) && s[i + |w|..] == rest
    ensures |rest| > 0 ==> s[i + |w|] == rest[0]
  {
    assert s[i..i + |w|] == s[i..][..|w|];
    assert s[i + |w|..] == s[i..][|w|..];
  }

  /** What a layout at i says about its first piece, which ends at n, and about the rest. */
  lemma LayoutStep(s: string, i: nat, ps: seq<Piece>, n: nat)
    requires LayoutOk(ps) && ps != [] && i <= |s| && s[i..] == Layout(ps)
    requires n == i + |PieceText(ps[0])|
    ensures PieceOk(ps[0]) && OccursAt(s, PieceText(ps[0]), i)
    ensures n < |s| ==> MayFollow(ps[0], s[n])
    ensures LayoutOk(ps[1..]) && n <= |s| && s[n..] == Layout(ps[1..])
    ensures LayoutTokens(ps) == PieceTokens(ps[0]) + LayoutTokens(ps[1..])
  {
    LayoutTail(ps);
    SuffixParts(s, i, PieceText(ps[0]), Layout(ps[1..]));
  }

  /** One piece, then a suffix that lexes to `rest`. */
  lemma LexPieceThen(s: string, i: nat, p: Piece, n: nat, rest: seq<Token>)
    requires PieceOk(p) && OccursAt(s, PieceText(p), i) && n == i + |PieceText(p)|
    requires n < |s| ==> MayFollow(p, s[n])
    requires Lex(s, n) == Success(rest)
    ensures Lex(s, i) == Success(PieceTokens(p) + rest)
  {
    LexPiece(s, i, p);
  }

  lemma {:induction false} LexLayoutAt(s: string, i: nat, ps: seq<Piece>)
    requires LayoutOk(ps) && i <= |s| && s[i..] == Layout(ps)
    ensures Lex(s, i) == Success(LayoutTokens(ps))
    decreases |ps|
  {
    if ps == [] {
      assert i == |s|;
    } else {
      var n := i + |PieceText(ps[0])|;
      LayoutStep(s, i, ps, n);
      LexLayoutAt(s, n, ps[1..]);
      LexPieceThen(s, i, ps[0], n, LayoutTokens(ps[1..]));
    }
  }

  /** Any well-formed layout lexes to the tokens of its pieces, in order. */
  lemma LexLayout(ps: seq<Piece>)
    requires LayoutOk(ps)
    ensures Lex(Layout(ps), 0) == Success(LayoutTokens(ps))
  {
    var s := Layout(ps);
    assert s[0..] == s;
    LexLayoutAt(s, 0, ps);
  }

  /** Tokens written out with a space after each. */
  function Spaced(ts: seq<Token>): seq<Piece> {
    if ts == [] then [] else [Tok(ts[0]), Gap(' ')] + Spaced(ts[1..])
  }

  /** Round trip: writing tokens in their canonical text and tokenizing gives the same tokens back. */
  lemma {:induction false} LexSpaced(ts: seq<Token>)
    requires forall k :: 0 <= k < |ts| ==> Writable(ts[k])
    ensures Lex(Layout(Spaced(ts)), 0) == Success(ts)
  {
    SpacedOk(ts);
    LexLayout(Spaced(ts));
  }

  lemma {:induction false} SpacedOk(ts: seq<Token>)
    requires forall k :: 0 <= k < |ts| ==> Writable(ts[k])
    ensures LayoutOk(Spaced(ts)) && LayoutTokens(Spaced(ts)) == ts
    decreases |ts|
  {
    if ts != [] {
      SpacedOk(ts[1..]);
      var ps := Spaced(ts);
      var tail := Spaced(ts[1..]);
      assert ps == [Tok(ts[0]), Gap(' ')] + tail;
      assert ps[1..] == [Gap(' ')] + tail;
      assert ps[1..][1..] == tail;
      assert Writable(ts[0]);
      assert LayoutOk(ps[1..]);
      assert LayoutTokens(ps) == [ts[0]] + LayoutTokens(ps[1..]);
      assert LayoutTokens(ps[1..]) == [] + LayoutTokens(tail);
    }
  }
}
