# ah-charts in Dafny

ah-charts reads World of Warcraft add-on save files and analyses them:

- Auctionator snapshots give the listings of the auction house.
- TradeSkillMaster databases give a player's purchases, sales and stock.

The files are Lua tables. The server tokenizes them, builds a tree from the tokens and reads
CSV logs and stock tables out of the tree. It rewrites Auctionator snapshots line by line into
JSON, keeps an operation history merged across machines, and answers price queries: the best
unit buyout of an item per snapshot or per day, and the average price of its cheapest listings.
It also keeps a wish list indexed by profile.

This project models that core and proves properties of the model. There is one module per
source file, with three exceptions: server/src/main/kotlin/main.kt is split over ServerMain
and ServerLoader, the rewriting loops of AuctionatorParser.kt, parser.kt and SampleMingw.kt
share SnapshotRewriter, and the `…Facts` and `…Examples` modules sit beside the module they are
about. Kotlin library behaviour the core relies on gets a module of its own:

- `Text`: strings, `split`, `substringBefore` and `Long.parseLong`;
- `Decimal`: `Double` parsing and `Double.toString` on decimals;
- `Cursor`: the `ListIterator` cursor the tokenizers share;
- `LinkedMap`: insertion-ordered maps, `toMap` and `groupBy`;
- `LinkedSet`: `toSet`;
- `Sorting`: `sortedBy`;
- `Lists`: `mapNotNull`.

Code that updates state step by step is a `method`, proved against a function:

- the tokenizer loops and producers;
- the tree builder;
- the TSM section reader;
- the stock classes;
- the operation history class;
- the line rewriter;
- the result-file loader.

Everywhere else the code is a function, with lemmas about it.

Outside calls become parameters or inputs:

- a JSON decoder, `string -> Option<Snapshot>`;
- the lines of a file, `seq<string>`;
- the files of a folder, `seq<…>` in the order given;
- the computer's name;
- the time zone, a function from epoch seconds to a day number.

Money and quantities are integers. Unit prices and averages are `real`.

## Model

| member | source | states |
|---|---|---|
| Text.IndexOfFrom | server/src/main/kotlin/parser/tsmParser.kt:177 | the first occurrence of a delimiter at or after a position, or none at all |
| Text.LastIndexOf | server/src/main/kotlin/parser/tsmParser.kt:95 | the last occurrence of a delimiter, or none |
| Text.ReplaceChar | server/src/main/kotlin/parser/AuctionatorParser.kt:54 | after `replace`, the removed character is gone unless the replacement has it; no other character is lost or invented |
| Text.Split | server/src/main/kotlin/parser/tsmParser.kt:123 | `split` always yields at least one piece |
| Text.SplitJoin | server/src/main/kotlin/parser/tsmParser.kt:123 | joining the pieces of a split with its separator gives back the text |
| Text.SplitPiecesFree | server/src/main/kotlin/parser/tsmParser.kt:123 | no piece of a split contains the separator |
| Text.JoinSplit | server/src/main/kotlin/parser/tsmParser.kt:26-29 | splitting fields joined by a character they do not contain gives back the fields |
| Text.ParseLongToString | server/src/main/kotlin/parser/tokenizer.kt:72 | `toLong` reads the decimal rendering of every Long back as that Long |
| Decimal.Normalize | server/src/main/kotlin/parser/LuaTokenizer.kt:87 | a decimal in lowest terms with the same value and sign |
| Decimal.ParseDouble | server/src/main/kotlin/parser/LuaTokenizer.kt:87 | `toDouble` of a number lexeme, when it parses, is a canonical decimal |
| Decimal.ParseUnsignedPoint | server/src/main/kotlin/parser/LuaTokenizer.kt:87 | digits, a point and digits parse as their value divided by ten to the number of fraction digits |
| Decimal.DoubleToStringReadBack | server/src/main/kotlin/parser/LuaTokenizer.kt:49 | `Double.toString` of a canonical decimal within [10^-3, 10^7) is plain text that `toDouble` reads back as the same decimal; outside it the text is scientific and reads back as the same value |
| Decimal.ScientificReadBack | server/src/main/kotlin/parser/LuaTokenizer.kt:49 | a significand `d.ddd`, an `E` and a signed exponent whose value is the number rendered |
| Decimal.ScientificText | server/src/main/kotlin/parser/LuaTokenizer.kt:49 | the scientific text reads as its significand digits times ten to the exponent less the fraction length |
| Decimal.ScientificValue | server/src/main/kotlin/parser/LuaTokenizer.kt:49 | the significand digits with trailing zeros dropped, scaled by the exponent, are the decimal's value |
| Decimal.DoubleToStringStart | server/src/main/kotlin/parser/LuaTokenizer.kt:49 | a rendering starts with `-` exactly for a negative number, and otherwise with a digit |
| Decimal.PlainWholeExamples | server/src/main/kotlin/parser/LuaTokenizer.kt:49 | 1 renders `1.0`, 250 renders `250.0`, and negative zero renders `-0.0` |
| Decimal.PlainFractionExample | server/src/main/kotlin/parser/LuaTokenizer.kt:49 | 0.0015 renders `0.0015` |
| Decimal.ScientificLarge | server/src/main/kotlin/parser/LuaTokenizer.kt:49 | 10^7 renders `1.0E7` |
| Decimal.ScientificSmall | server/src/main/kotlin/parser/LuaTokenizer.kt:49 | 0.00015 renders `1.5E-4` |
| Decimal.ToLong | server/src/main/kotlin/stock.kt:56 | `Double.toLong`: a value within the Long range is truncated toward zero, and a value beyond a bound gives that bound |
| Decimal.ParseRender | server/src/main/kotlin/parser/LuaTokenizer.kt:87 | parsing the plain rendering of a canonical decimal gives it back |
| Decimal.CanonicalUnique | server/src/main/kotlin/parser/LuaTokenizer.kt:87 | two canonical decimals with the same sign and value are equal |
| Cursor.RunLength | server/src/main/kotlin/parser/LuaTokenizer.kt:66 | the length of the run satisfying a predicate: all inside satisfy it and the next element does not |
| Cursor.SeqIterator.Next | server/src/main/kotlin/parser/LuaTokenizer.kt:113 | `next` returns the element under the cursor and advances; at the end it yields nothing |
| Cursor.SeqIterator.Previous | server/src/main/kotlin/parser/LuaTokenizer.kt:82 | `previous` steps back one and returns that element |
| Cursor.SeqIterator.TakeWhile | server/src/main/kotlin/parser/LuaTokenizer.kt:66 | `asSequence().takeWhile` returns the run and also consumes the element that ends it |
| Cursor.SeqIterator.RunThenPushBack | server/src/main/kotlin/parser/LuaTokenizer.kt:81-86 | the run, then the producer's `previous`/`next`/`previous` dance puts back an ending element that fails the test |
| LuaTokenizer.ToBoolean | server/src/main/kotlin/parser/LuaTokenizer.kt:102 | `toBoolean` is true exactly for "true" in any case, and never fails |
| LuaTokenizer.StringAt | server/src/main/kotlin/parser/LuaTokenizer.kt:64-71 | a string never fails, has no `"` in its value, and ends within the text |
| LuaTokenizer.NumberAt | server/src/main/kotlin/parser/LuaTokenizer.kt:79-91 | a number is a canonical decimal, or fails with NumberFormat on exactly its lexeme |
| LuaTokenizer.BooleanAt | server/src/main/kotlin/parser/LuaTokenizer.kt:93-107 | a word never fails and ends within the text |
| LuaTokenizer.KeyName | server/src/main/kotlin/parser/LuaTokenizer.kt:49 | the key text, read as a string or as a number's rendering, ends within the text |
| LuaTokenizer.KeyAt | server/src/main/kotlin/parser/LuaTokenizer.kt:45-56 | a key token ends within the text |
| LuaTokenizer.TokenAt | server/src/main/kotlin/parser/LuaTokenizer.kt:114-120 | what the producer chain makes of the character before cursor j: a produced token ends within the text; TokenAtChain and the TokenAt lemmas state the rest |
| LuaTokenizer.Lex | server/src/main/kotlin/parser/LuaTokenizer.kt:109-126 | the tokens of the rest of the text, with no ensures; LexEmit, LexDecline, LexThrow and the LuaTokenizerFacts lemmas state its meaning |
| LuaTokenizer.TokenAtChain | server/src/main/kotlin/parser/LuaTokenizer.kt:114-120 | the producers are tried in the fixed order `=`, `{`, `}`, `[`, `"`, number, word, and the first result wins |
| LuaTokenizer.TokenAtPunctuation | server/src/main/kotlin/parser/LuaTokenizer.kt:27-43 | `=`, `{` and `}` each give their one token and consume nothing more |
| LuaTokenizer.TokenAtKey | server/src/main/kotlin/parser/LuaTokenizer.kt:45-47 | a `[` is always handed to the key producer |
| LuaTokenizer.TokenAtString | server/src/main/kotlin/parser/LuaTokenizer.kt:58-65 | a `"` is always handed to the string producer |
| LuaTokenizer.TokenAtNumber | server/src/main/kotlin/parser/LuaTokenizer.kt:79-80 | a digit or `-` is always handed to the number producer |
| LuaTokenizer.TokenAtWord | server/src/main/kotlin/parser/LuaTokenizer.kt:95 | a letter is always handed to the word producer |
| LuaTokenizer.TokenAtOther | server/src/main/kotlin/parser/LuaTokenizer.kt:114-120 | no producer accepts any other character |
| LuaTokenizer.LexEmit | server/src/main/kotlin/parser/LuaTokenizer.kt:121-123 | a produced token is appended before the tokens of the rest of the text |
| LuaTokenizer.LexDecline | server/src/main/kotlin/parser/LuaTokenizer.kt:121 | a character no producer accepts adds nothing |
| LuaTokenizer.LexThrow | server/src/main/kotlin/parser/LuaTokenizer.kt:112-124 | an exception of a producer ends tokenizing with that error |
| LuaTokenizer.StringLogic | server/src/main/kotlin/parser/LuaTokenizer.kt:64-71 | the iterator-driven `stringLogic` returns what StringAt says and leaves the cursor where it says |
| LuaTokenizer.LongLogic | server/src/main/kotlin/parser/LuaTokenizer.kt:79-91 | the iterator-driven `longLogic` returns what NumberAt says and leaves the cursor where it says |
| LuaTokenizer.ProduceKey | server/src/main/kotlin/parser/LuaTokenizer.kt:45-56 | the key producer returns what KeyAt says and leaves the cursor where it says |
| LuaTokenizer.ProduceBoolean | server/src/main/kotlin/parser/LuaTokenizer.kt:93-107 | the word producer returns what BooleanAt says and leaves the cursor where it says |
| LuaTokenizer.Produce | server/src/main/kotlin/parser/LuaTokenizer.kt:114-120 | the elvis chain of producers returns what TokenAt says and leaves the cursor where it says |
| LuaTokenizer.Tokenize | server/src/main/kotlin/parser/LuaTokenizer.kt:109-126 | the tokenize loop returns the tokens the functional lexer gives for the whole text |
| LuaTokenizerFacts.LexIgnored | server/src/main/kotlin/parser/LuaTokenizer.kt:114-123 | a character no producer takes (a space, a comma, a stray `]`, any other symbol) is dropped |
| LuaTokenizerFacts.LexPunctuation | server/src/main/kotlin/parser/LuaTokenizer.kt:27-43 | `=`, `{` and `}` each add exactly one Assignment, ObjectStart or ObjectEnd |
| LuaTokenizerFacts.StringTokenAt | server/src/main/kotlin/parser/LuaTokenizer.kt:64-71 | a quoted text is one string token holding everything up to the next quote, both quotes consumed |
| LuaTokenizerFacts.LexString | server/src/main/kotlin/parser/LuaTokenizer.kt:64-71 | a quoted text adds its string token and tokenizing goes on after the closing quote |
| LuaTokenizerFacts.KeyTokenAt | server/src/main/kotlin/parser/LuaTokenizer.kt:45-56 | `["k"]` is one key token `k`, the `]` consumed |
| LuaTokenizerFacts.LexKey | server/src/main/kotlin/parser/LuaTokenizer.kt:45-56 | `["k"]` adds Key(k) and tokenizing goes on after the `]` |
| LuaTokenizerFacts.NumberAtLexeme | server/src/main/kotlin/parser/LuaTokenizer.kt:81-86 | a number's lexeme is its first character plus the run of digits and points, and the character ending it is pushed back |
| LuaTokenizerFacts.NumberTokenAt | server/src/main/kotlin/parser/LuaTokenizer.kt:79-91 | a number lexeme gives the double it parses to, or a NumberFormat failure on that lexeme |
| LuaTokenizerFacts.LexNumber | server/src/main/kotlin/parser/LuaTokenizer.kt:79-91 | a number that parses adds its double token, and tokenizing goes on at the character that ended it |
| LuaTokenizerFacts.LexBadNumber | server/src/main/kotlin/parser/LuaTokenizer.kt:87 | a lexeme that does not parse, such as `1.2.3` or a lone `-`, fails the whole tokenize |
| LuaTokenizerFacts.WordTokenAt | server/src/main/kotlin/parser/LuaTokenizer.kt:93-107 | a run of letters is one boolean token, its value `toBoolean` of the word |
| LuaTokenizerFacts.LexWord | server/src/main/kotlin/parser/LuaTokenizer.kt:93-107 | a run of letters adds its boolean token and tokenizing goes on after it |
| LuaTokenizerFacts.LexBoolean | server/src/main/kotlin/parser/LuaTokenizer.kt:102 | `true` and `false` add BooleanToken(true) and BooleanToken(false) |
| LuaTokenizerFacts.NumberKeyTokenAt | server/src/main/kotlin/parser/LuaTokenizer.kt:49 | `[n]` with a number n is one key whose text is the Double rendering of n |
| LuaTokenizerFacts.NumberKeyName | server/src/main/kotlin/parser/LuaTokenizer.kt:49 | the text of a numeric key is the Double rendering of its number |
| LuaTokenizerFacts.LexNumberKey | server/src/main/kotlin/parser/LuaTokenizer.kt:45-56 | `[n]` adds Key of n's Double rendering and tokenizing goes on after the `]` |
| LuaTokenizerFacts.LexNullKey | server/src/main/kotlin/parser/LuaTokenizer.kt:49-50 | `[` followed by neither a quote nor a number gives Key("null") and consumes the next character whatever it is |
| LuaTokenizerFacts.LexKeyAtEnd | server/src/main/kotlin/parser/LuaTokenizer.kt:48 | a `[` at the very end fails with NoSuchElement |
| LuaTokenizerFacts.LexRendered | server/src/main/kotlin/parser/LuaTokenizer.kt:79-91 | the plain rendering of a decimal tokenizes back to that decimal |
| LuaTokenizerFacts.LexLayout | server/src/main/kotlin/parser/LuaTokenizer.kt:109-126 | any text laid out as token texts and ignored gaps tokenizes to exactly those tokens, in source order |
| LuaTokenizerFacts.LexSpaced | server/src/main/kotlin/parser/LuaTokenizer.kt:109-126 | writing any writable tokens separated by spaces and tokenizing the text gives back the tokens |
| LuaTokenizerExamples.StringTokenExample | server/src/test/kotlin/parser/LuaTokenizerTest.kt:9-11 | `"salut"` gives the string token salut |
| LuaTokenizerExamples.BooleanTokenExample | server/src/test/kotlin/parser/LuaTokenizerTest.kt:14-16 | `true` gives BooleanToken(true) |
| LuaTokenizerExamples.DoubleTokenExample | server/src/test/kotlin/parser/LuaTokenizerTest.kt:19-21 | `250.0` gives DoubleToken(250.0) |
| LuaTokenizerExamples.PunctuationExamples | server/src/test/kotlin/parser/LuaTokenizerTest.kt:24-41 | `{`, `}` and `=` give ObjectStart, ObjectEnd and Assignment |
| LuaTokenizerExamples.KeyTokenExample | server/src/test/kotlin/parser/LuaTokenizerTest.kt:34-36 | `["my-key"]` gives Key("my-key") |
| LuaTokenizerExamples.NumberKeyExample | server/src/main/kotlin/parser/LuaTokenizer.kt:49 | `[1]` gives Key("1.0") |
| LuaTokenizerExamples.LoneMinusExample | server/src/main/kotlin/parser/LuaTokenizer.kt:79-91 | a lone `-` fails with NumberFormat("-") |
| LegacyTokenizer.RawKeyAt | server/src/main/kotlin/parser/tokenizer.kt:41-50 | a raw key never fails and has no `]` in its text |
| LegacyTokenizer.LongAt | server/src/main/kotlin/parser/tokenizer.kt:63-77 | a number is a Long in range, or fails with NumberFormat on exactly its lexeme |
| LegacyTokenizer.TokenAt | server/src/main/kotlin/parser/tokenizer.kt:100-106 | what the older producer chain makes of the character before cursor j: a produced token ends within the text; TokenAtChain and the TokenAt lemmas state the rest |
| LegacyTokenizer.Lex | server/src/main/kotlin/parser/tokenizer.kt:95-112 | the tokens of the rest of the text, with no ensures; LexEmit, LexDecline, LexThrow, LexFailsOnNumber and the LegacyTokenizerFacts lemmas state its meaning |
| LegacyTokenizer.TokenAtChain | server/src/main/kotlin/parser/tokenizer.kt:100-106 | the older producers are tried in the same fixed order, and the first result wins |
| LegacyTokenizer.TokenAtPunctuation | server/src/main/kotlin/parser/tokenizer.kt:23-39 | `=`, `{` and `}` each give their one token |
| LegacyTokenizer.TokenAtKey | server/src/main/kotlin/parser/tokenizer.kt:41-43 | a `[` is always handed to the raw key producer |
| LegacyTokenizer.TokenAtString | server/src/main/kotlin/parser/tokenizer.kt:52-54 | a `"` is always handed to the string producer |
| LegacyTokenizer.TokenAtNumber | server/src/main/kotlin/parser/tokenizer.kt:63-65 | a digit or `-` is always handed to the Long producer |
| LegacyTokenizer.TokenAtWord | server/src/main/kotlin/parser/tokenizer.kt:79-81 | a letter is always handed to the word producer |
| LegacyTokenizer.TokenAtOther | server/src/main/kotlin/parser/tokenizer.kt:100-110 | no producer accepts any other character |
| LegacyTokenizer.LexEmit | server/src/main/kotlin/parser/tokenizer.kt:107-109 | a produced token is appended before the tokens of the rest |
| LegacyTokenizer.LexDecline | server/src/main/kotlin/parser/tokenizer.kt:107 | an unaccepted character adds nothing |
| LegacyTokenizer.LexThrow | server/src/main/kotlin/parser/tokenizer.kt:98-110 | an exception of a producer ends tokenizing with that error |
| LegacyTokenizer.LexFailsOnNumber | server/src/main/kotlin/parser/tokenizer.kt:72 | the older tokenizer can only fail on a number that `toLong` rejects |
| LegacyTokenizer.ProduceRawKey | server/src/main/kotlin/parser/tokenizer.kt:41-50 | the iterator-driven key producer returns what RawKeyAt says and leaves the cursor where it says |
| LegacyTokenizer.ProduceLong | server/src/main/kotlin/parser/tokenizer.kt:63-77 | the iterator-driven Long producer returns what LongAt says and leaves the cursor where it says |
| LegacyTokenizer.Produce | server/src/main/kotlin/parser/tokenizer.kt:100-106 | the elvis chain returns what TokenAt says and leaves the cursor where it says |
| LegacyTokenizer.Tokenize2 | server/src/main/kotlin/parser/tokenizer.kt:95-112 | the `tokenize2` loop returns the tokens the functional lexer gives for the whole text |
| LegacyTokenizerFacts.LexIgnored | server/src/main/kotlin/parser/tokenizer.kt:98-110 | a character no producer takes is dropped, as in the newer tokenizer |
| LegacyTokenizerFacts.LexPunctuation | server/src/main/kotlin/parser/tokenizer.kt:23-39 | `=`, `{` and `}` each add exactly one token |
| LegacyTokenizerFacts.RawKeyTokenAt | server/src/main/kotlin/parser/tokenizer.kt:41-50 | `[k]` is one key holding k verbatim, quotes included, the `]` consumed |
| LegacyTokenizerFacts.LexRawKey | server/src/main/kotlin/parser/tokenizer.kt:41-50 | `[k]` adds Key(k) and tokenizing goes on after the `]` |
| LegacyTokenizerFacts.LexOpenKey | server/src/main/kotlin/parser/tokenizer.kt:44 | a `[` never closed takes the rest of the text as its key |
| LegacyTokenizerFacts.StringTokenAt | server/src/main/kotlin/parser/tokenizer.kt:52-61 | a quoted text is one string token up to the next quote |
| LegacyTokenizerFacts.LexString | server/src/main/kotlin/parser/tokenizer.kt:52-61 | a quoted text adds its string and tokenizing goes on after the closing quote |
| LegacyTokenizerFacts.LongTokenAt | server/src/main/kotlin/parser/tokenizer.kt:63-77 | a number lexeme gives the Long it parses to, or a NumberFormat failure on that lexeme |
| LegacyTokenizerFacts.LexLong | server/src/main/kotlin/parser/tokenizer.kt:63-77 | a lexeme that is a Long adds its token, and tokenizing goes on at the pushed-back character |
| LegacyTokenizerFacts.LexBadLong | server/src/main/kotlin/parser/tokenizer.kt:72 | a lexeme `toLong` rejects fails the whole tokenize |
| LegacyTokenizerFacts.DotNotLong | server/src/main/kotlin/parser/tokenizer.kt:72 | a lexeme with a `.` is never a Long |
| LegacyTokenizerFacts.LexDotted | server/src/main/kotlin/parser/tokenizer.kt:66-72 | a number with a `.` fails the whole tokenize |
| LegacyTokenizerFacts.LexRenderedLong | server/src/main/kotlin/parser/tokenizer.kt:63-77 | the decimal rendering of any Long tokenizes back to that Long |
| LegacyTokenizerFacts.WordTokenAt | server/src/main/kotlin/parser/tokenizer.kt:79-93 | a run of letters is one boolean token, its value `toBoolean` of the word |
| LegacyTokenizerFacts.LexWord | server/src/main/kotlin/parser/tokenizer.kt:79-93 | a run of letters adds its boolean token, and tokenizing goes on at the character after it |
| LegacyTokenizerExamples.RawKeyExample | server/src/main/kotlin/parser/tokenizer.kt:41-50 | `["faction"]` gives Key("\"faction\"") |
| LegacyTokenizerExamples.SalutExample | server/src/main/kotlin/parser/tokenizer.kt:16 | the demo word `salut` gives BooleanToken(false) |
| LegacyTokenizerExamples.FerExample | server/src/main/kotlin/parser/tokenizer.kt:16 | the demo word `fer` gives BooleanToken(false) |
| LegacyTokenizerExamples.UpperTrueExample | server/src/main/kotlin/parser/tokenizer.kt:88 | `TRUE` gives BooleanToken(true) |
| LegacyTokenizerExamples.LongExample | server/src/main/kotlin/parser/tokenizer.kt:72 | `500` gives LongToken(500) |
| LegacyTokenizerExamples.DottedExample | server/src/main/kotlin/parser/tokenizer.kt:72 | `1.5` fails with NumberFormat("1.5") |
| Ast.FindKey | server/src/main/kotlin/parser/ast.kt:17 | the position of the first KV child with the key, or none when no child has it |
| Ast.GetElementByKey | server/src/main/kotlin/parser/ast.kt:16-19 | the value of the first KV child with the key; null exactly when no KV child has it, anonymous children never matching |
| Ast.ParseContent | server/src/main/kotlin/parser/ast.kt:46-79 | the content grows from what was built, the tokens shrink, and content ends only at ObjectEnd or when the tokens run out |
| Ast.ParseAst | server/src/main/kotlin/parser/ast.kt:38-44 | a built tree is an object whose tokens began with ObjectStart; no tokens fail with NoMoreTokens, any other first token with ExpectObjectStart |
| Ast.BuildLuaObject | server/src/main/kotlin/parser/ast.kt:46-79 | the recursive builder over the shared iterator returns what ParseContent says and leaves the iterator at the tokens it leaves |
| Ast.BuildAst | server/src/main/kotlin/parser/ast.kt:38-44 | `buildAst` returns what ParseAst says |
| AstFacts.ParseElement | server/src/main/kotlin/parser/ast.kt:47-76 | the tokens of any child are read back as that child and appended to the content |
| AstFacts.ParseLeaf | server/src/main/kotlin/parser/ast.kt:69-72 | an unkeyed string or number becomes an anonymous child |
| AstFacts.ParseNested | server/src/main/kotlin/parser/ast.kt:52-53 | an unkeyed object becomes an anonymous child |
| AstFacts.ParsePair | server/src/main/kotlin/parser/ast.kt:55-68 | Key, Assignment and a value become one KV child |
| AstFacts.ParsePairLiteral | server/src/main/kotlin/parser/ast.kt:61-64 | a string, number or boolean after `key =` becomes the KV's literal |
| AstFacts.ParsePairObject | server/src/main/kotlin/parser/ast.kt:65 | an object after `key =` becomes the KV's value |
| AstFacts.ParseObject | server/src/main/kotlin/parser/ast.kt:50-51 | the children's tokens then ObjectEnd close an object holding exactly those children |
| AstFacts.ParsePrefix | server/src/main/kotlin/parser/ast.kt:48-76 | children keep token-stream order |
| AstFacts.RoundTrip | server/src/main/kotlin/parser/ast.kt:38-44 | building the tokens of any object built of proper children gives back that object |
| AstFacts.OpenRoundTrip | server/src/main/kotlin/parser/ast.kt:78 | running out of tokens before ObjectEnd returns the object built so far |
| AstFacts.TrailingTokens | server/src/main/kotlin/parser/ast.kt:42 | any token after the outer object closes fails with NotFinished |
| AstFacts.StrayToken | server/src/main/kotlin/parser/ast.kt:73-75 | an unkeyed boolean or assignment fails with ExpectKey |
| AstFacts.KeyWithoutAssignment | server/src/main/kotlin/parser/ast.kt:58-59 | a key not followed by Assignment fails with ExpectAssignment |
| AstFacts.KeyWithoutValue | server/src/main/kotlin/parser/ast.kt:60-67 | `key =` followed by anything but a string, number, boolean or object fails with ExpectLiteral |
| AstFacts.PairCutShort | server/src/main/kotlin/parser/ast.kt:58-60 | a key or `key =` at the very end fails with NoMoreTokens |
| Ast.ToJson | server/src/main/kotlin/parser/ast.kt:12-35 | `toJson` as written, with no ensures; its properties are JsonStart and JsonAppend |
| Ast.ChildrenJson | server/src/main/kotlin/parser/ast.kt:13 | the children's renderings, one per child, in order |
| AstFacts.JsonStart | server/src/main/kotlin/parser/ast.kt:12-35 | each kind of element renders starting with its own character: `[`, `{`, `"`, a digit or `-`, `t` or `f` |
| AstFacts.JsonAppend | server/src/main/kotlin/parser/ast.kt:13 | adding a child to an object adds its rendering before the closing `]`, after `,\n` when the object already had children |
| AstFacts.TextToTree | server/src/main/kotlin/parser/ast.kt:38-44 | writing the tokens of any tree out as text, tokenizing and building gives back the tree |
| AstExamples.SimpleObject | server/src/test/kotlin/parser/LuaParserTest.kt:8-17 | the simple-object tokens build [faction="Alliance", realm="Sulfuron"] |
| AstExamples.NestedObject | server/src/test/kotlin/parser/LuaParserTest.kt:19-28 | the nested-object tokens build key = {sub-key = "value"} |
| AstExamples.ObjectWithList | server/src/test/kotlin/parser/LuaParserTest.kt:30-44 | the list tokens build key = {{sub-key-1 = "value1"}, {sub-key-2 = 2.0}} |
| AstExamples.FirstKeyWins | server/src/main/kotlin/parser/ast.kt:16-19 | the first KV child with a key wins, and an anonymous child with that text is no match |
| TsmParser.CleanTsmLine | server/src/main/kotlin/parser/tsmParser.kt:95 | the kept text is a prefix of the line, and a line without `--` is kept whole |
| TsmParser.ReadDbSection | server/src/main/kotlin/parser/tsmParser.kt:89-105 | the reading loop gives the text DbSection defines |
| TsmParser.DbSectionStops | server/src/main/kotlin/parser/tsmParser.kt:98-99 | nothing from the first line starting "TSMItemInfoDB" on is read |
| TsmParser.DbSectionAppend | server/src/main/kotlin/parser/tsmParser.kt:94-103 | the lines before the end marker are concatenated with no separator |
| TsmParser.SectionPieces | server/src/main/kotlin/parser/tsmParser.kt:95-101 | a line starting "TradeSkillMasterDB" becomes `{`, and an ordinary line without `--` is read as is |
| TsmParser.GetContent | server/src/main/kotlin/parser/tsmParser.kt:135-140 | the children of an object; anything else fails with NotGoodFormat |
| TsmParser.GetValue | server/src/main/kotlin/parser/tsmParser.kt:142-150 | succeeds exactly when the node is an object whose first KV with the key holds a string, and returns that string |
| TsmParser.GetObject | server/src/main/kotlin/parser/tsmParser.kt:159-167 | succeeds exactly when the node is an object whose first KV with the key holds an object, and returns it |
| TsmParser.GetValues | server/src/main/kotlin/parser/tsmParser.kt:152-157 | a map exactly when the node is an object |
| TsmParser.GetValuesKeys | server/src/main/kotlin/parser/tsmParser.kt:154 | its keys are exactly the keys of the KV children; anonymous children are ignored |
| TsmParser.GetValuesLast | server/src/main/kotlin/parser/tsmParser.kt:154 | a repeated key maps to the value of its last KV child |
| TsmParser.ParseRow | server/src/main/kotlin/parser/tsmParser.kt:26-29 | a row parses exactly when it has no more fields than the header, and fails with the index error otherwise |
| TsmParser.Zip | server/src/main/kotlin/parser/tsmParser.kt:29 | field i is paired with column i |
| TsmParser.RowField | server/src/main/kotlin/parser/tsmParser.kt:29 | the value of column i is field i when no later field has the same column |
| TsmParser.RowColumns | server/src/main/kotlin/parser/tsmParser.kt:29 | a row holds exactly the columns that some field reaches |
| TsmParser.Field | server/src/main/kotlin/parser/tsmParser.kt:177-182 | a column's value, or MissingField when the row lacks it |
| TsmParser.ToLong | server/src/main/kotlin/parser/tsmParser.kt:178 | `toLong` succeeds exactly on Long text, or fails with NumberFormat on that text |
| TsmParser.EpochSecond | server/src/main/kotlin/parser/tsmParser.kt:183 | `Instant.ofEpochSecond` succeeds exactly within the Instant range |
| TsmParser.BuildOperation | server/src/main/kotlin/parser/tsmParser.kt:169-186 | rows not from "Auction" give null; an Auction row succeeds exactly when all its columns are present, its numbers and item id parse as Longs and its time is a valid Instant; its operation has the builder's kind, the item id between the first two `:` of itemString, the columns read as text or Longs, and a representable time; a missing itemString fails first |
| TsmParser.RowOperations | server/src/main/kotlin/parser/tsmParser.kt:125 | one row gives at most one operation, of the parser's kind |
| TsmParser.ParseRows | server/src/main/kotlin/parser/tsmParser.kt:125 | no more operations than rows, all of the parser's kind |
| TsmParser.SkipOtherSource | server/src/main/kotlin/parser/tsmParser.kt:172-173 | a row whose source is not "Auction" is skipped |
| TsmParser.ParseRowsCons | server/src/main/kotlin/parser/tsmParser.kt:125 | the rows fail if one fails, and otherwise the operations are the first row's then the rest's |
| TsmParser.ParseRowsAppend | server/src/main/kotlin/parser/tsmParser.kt:125 | the operations of two blocks of rows are the operations of each, in order |
| TsmParser.CellsRead | server/src/main/kotlin/parser/tsmParser.kt:26-29 | a row written under a header reads back each of its columns |
| TsmParser.ItemIdOf | server/src/main/kotlin/parser/tsmParser.kt:177 | the item of "i:<id>" is <id> |
| TsmParser.ItemIdExample | server/src/main/kotlin/parser/tsmParser.kt:177 | the item of "i:1234:0" is "1234" |
| TsmParser.BuildFromCells | server/src/main/kotlin/parser/tsmParser.kt:172-183 | a row whose columns render an operation builds exactly that operation |
| TsmParser.RowRoundTrip | server/src/main/kotlin/parser/tsmParser.kt:169-186 | writing an operation as a CSV row and parsing it gives back that one operation |
| TsmParser.ParseLog | server/src/main/kotlin/parser/tsmParser.kt:121-133 | reads the string under the literal key, splits it on the two characters `\n` and parses the lines after the header line 0 |
| TsmParser.ParseBuys | server/src/main/kotlin/parser/tsmParser.kt:121-126 | all operations are BUY, and a missing purchase log fails |
| TsmParser.ParseSales | server/src/main/kotlin/parser/tsmParser.kt:128-133 | all operations are SELL, and a missing sales log fails |
| TsmParser.TsmKey | server/src/main/kotlin/parser/tsmParser.kt:109-119 | the key is "s@", the character and " - Alliance - Sulfuron@internalData@", then the slot's field name at the end |
| TsmParser.TsmKeyInjective | server/src/main/kotlin/parser/tsmParser.kt:109-119 | different characters or slots give different keys |
| Stock.WrapLong | server/src/main/kotlin/stock.kt:41 | Long arithmetic wraps into the Long range, and values already in range are unchanged |
| Stock.WrapAdd | server/src/main/kotlin/stock.kt:41 | adding to a wrapped sum wraps the whole sum |
| Stock.AddQuantity | server/src/main/kotlin/stock.kt:41 | `ItemInStock.add` changes only the quantity, by the Long sum |
| Stock.AddEntry | server/src/main/kotlin/stock.kt:27-28 | a new (character, slot) stores the entry, an existing one adds the quantity, and every other pair is unchanged |
| Stock.AddEntryCoherent | server/src/main/kotlin/stock.kt:26-30 | the table of one item stays keyed by its entries' character and slot |
| Stock.SlotEntries | server/src/main/kotlin/stock.kt:34 | the slot maps of the characters, in character order |
| Stock.InFlatten | server/src/main/kotlin/stock.kt:34 | an element is in the flattened list exactly when it is in one of the parts |
| Stock.EntriesAre | server/src/main/kotlin/stock.kt:34 | the listed entries are exactly the stored ones |
| Stock.ItemStock.Add | server/src/main/kotlin/stock.kt:26-30 | `ItemStock.add` updates the nested table as AddEntry says |
| Stock.ItemStock.GetItemInStock | server/src/main/kotlin/stock.kt:34 | the entries of every character and slot |
| Stock.StockLookupAdd | server/src/main/kotlin/stock.kt:11-13 | an add stores or increments only its own (item, character, slot) |
| Stock.QuantityIsSum | server/src/main/kotlin/stock.kt:11-13 | after any sequence of adds a triple is stored exactly when added, with the wrapped sum of its quantities |
| Stock.Stock.Add | server/src/main/kotlin/stock.kt:11-13 | `Stock.add` updates the contents as StockAdd says |
| Stock.Stock.AddExisting | server/src/main/kotlin/stock.kt:12 | an item already present updates its own ItemStock |
| Stock.Stock.AddNew | server/src/main/kotlin/stock.kt:12 | a new item gets a fresh ItemStock holding the entry |
| Stock.Stock.GetItemInStock | server/src/main/kotlin/stock.kt:17 | empty for an item never added, and otherwise exactly the stored entry of each (character, slot) |
| Stock.StringChildren | server/src/main/kotlin/stock.kt:73 | exactly the values of the string children |
| Stock.CharacterKeys | server/src/main/kotlin/stock.kt:76-82 | the text before the first space, in slots INVENTORY, BANK, MAIL and AUCTION in that order |
| Stock.ReadingKeys | server/src/main/kotlin/stock.kt:75-83 | four keys per character name, in order |
| Stock.DiscoverTsmStockKey | server/src/main/kotlin/stock.kt:70-84 | fails with NotGoodFormat exactly when `_scopeKeys` or its `sync` is not an object; otherwise the four reading keys of each string child of `sync`, in order |
| Stock.NumericItems | server/src/main/kotlin/stock.kt:51-52 | the item keys whose value is a number, in key order, and only those |
| Stock.SlotItems | server/src/main/kotlin/stock.kt:50-59 | fails with NumberFormat exactly when a numeric value's item id is not a Long; otherwise one entry per numeric value, in key order, holding the item id between the first two `:`, the value truncated to a Long, and the reading key's character and slot |
| Stock.EntriesCons | server/src/main/kotlin/stock.kt:53-59 | a numeric first value contributes the first entry |
| Stock.KeyEntries | server/src/main/kotlin/stock.kt:48-59 | a reading key whose tsmKey is not an object fails with NotGoodFormat; otherwise its entries are those read from the numeric values of that object |
| Stock.KeyParts | server/src/main/kotlin/stock.kt:47-59 | the entries of each reading key, key by key |
| Stock.KeyItems | server/src/main/kotlin/stock.kt:47-60 | succeeds exactly when every reading key reads, and then is the concatenation of the keys' entries in key order; otherwise it fails with the error of the first key that does not read; each entry has a Long quantity and one of the reading keys |
| Stock.KeyItemsCons | server/src/main/kotlin/stock.kt:47-60 | the first key's entries followed by those of the other keys are the concatenation over all keys |
| Stock.StockItems | server/src/main/kotlin/stock.kt:44-60 | fails with NotGoodFormat exactly when `_scopeKeys` or its `sync` object cannot be read; with no reading keys it succeeds with no entries; on success the concatenation over the discovered reading keys of their entries, all with Long quantities |
| Stock.StockEntryFromKey | server/src/main/kotlin/stock.kt:47-60 | an entry is extracted exactly when one of the discovered reading keys yields it |
| Stock.ExtractStockFromTsmDb | server/src/main/kotlin/stock.kt:44-68 | a fresh stock holding the table of all entries, or the reading error |
| Stock.AddAll | server/src/main/kotlin/stock.kt:62-63 | the add loop builds the table of the entries |
| Stock.ExtractedQuantity | server/src/main/kotlin/stock.kt:44-68 | the extracted quantity of a triple is the wrapped sum of its entries |
| Sorting.Insert | server/src/main/kotlin/operations.kt:81 | inserting into a sorted list keeps it sorted and adds the element |
| Sorting.SortBy | server/src/main/kotlin/operations.kt:81 | `sortedBy` gives a sorted permutation |
| Sorting.InsertWithKey | server/src/main/kotlin/operations.kt:81 | inserting an element keeps it ahead of the elements with its key |
| Sorting.SortByStable | server/src/main/kotlin/operations.kt:81 | `sortedBy` is stable: the elements with any one key keep their order |
| Sorting.WithKey | server/src/main/kotlin/operations.kt:81 | the elements with one key, in order, and no others |
| Sorting.WithKeySnoc | server/src/main/kotlin/operations.kt:81 | an appended element joins its key's elements at the end |
| Sorting.WithKeyMembers | server/src/main/kotlin/operations.kt:81 | exactly the elements with that key |
| Sorting.WithKeyAppend | server/src/main/kotlin/operations.kt:78 | one key's elements of a concatenation are those of each part, in order |
| LinkedSet.Dedup | server/src/main/kotlin/parser/AuctionatorParser.kt:85 | `toSet` keeps each element once and loses none |
| LinkedSet.DedupDistinct | server/src/main/kotlin/parser/AuctionatorParser.kt:85 | a list without repeats is unchanged |
| LinkedSet.FirstIndex | server/src/main/kotlin/parser/AuctionatorParser.kt:85 | the position of an element's first occurrence: it is there and nowhere before |
| LinkedSet.FirstIndexIs | server/src/main/kotlin/parser/AuctionatorParser.kt:85 | a position holding the element with no earlier copy is its first occurrence |
| LinkedSet.FirstIndexPrefix | server/src/main/kotlin/parser/AuctionatorParser.kt:85 | appending an element moves no earlier first occurrence |
| LinkedSet.DedupOrder | server/src/main/kotlin/parser/AuctionatorParser.kt:85 | `toSet` lists its elements in the order of their first occurrences |
| LinkedSet.DedupWithKey | server/src/main/kotlin/operations.kt:77-81 | removing repeats and then keeping the elements of one key is keeping them and then removing repeats |
| LinkedMap.Put | server/src/main/kotlin/main.kt:57 | the key is set, other keys keep their values, and a new key goes last |
| LinkedMap.Values | server/src/main/kotlin/main.kt:62 | the values in key order |
| LinkedMap.FromPairsHas | server/src/main/kotlin/parser/tsmParser.kt:29 | `toMap` has exactly the keys of the pairs |
| LinkedMap.FromPairsLast | server/src/main/kotlin/parser/tsmParser.kt:29 | a repeated key maps to its last value |
| LinkedMap.GroupPairsSelect | server/src/main/kotlin/WishList.kt:14 | `groupBy` has a key exactly when some pair has it, and its group is the pairs' values for it, in order |
| Lists.MapNotNull | server/src/main/kotlin/WishList.kt:26 | no more results than inputs, each one the non-null image of some input |
| Lists.MapNotNullAppend | server/src/main/kotlin/WishList.kt:26 | `mapNotNull` of a concatenation is the concatenation of the results |
| Lists.MapNotNullHas | server/src/main/kotlin/WishList.kt:26 | every non-null image is kept |
| Operations.ExtractSavedHash | server/src/main/kotlin/operations.kt:87 | the hash read from a saved file name `operation-history-<epoch>-<hex>.json` is <hex> |
| Operations.NewHashesAre | server/src/main/kotlin/operations.kt:63-70 | the new hashes are exactly those of the eligible files: prefix "operation-history" and hash not yet integrated |
| Operations.NewHashesEmpty | server/src/main/kotlin/operations.kt:76 | there are new hashes exactly when some file is eligible |
| Operations.Normalize | server/src/main/kotlin/operations.kt:81 | the set-then-sort gives each operation once, in time order, and loses none |
| Operations.NormalizeNormal | server/src/main/kotlin/operations.kt:81 | a list sorted by time without repeats is unchanged |
| Operations.NormalizeStable | server/src/main/kotlin/operations.kt:77-81 | the operations of one time keep the order of their first occurrences, each once |
| Operations.IntegratedStable | server/src/main/kotlin/operations.kt:76-82 | after an integration, the operations of one time are the new files' ones in file order, then the older ones, each once |
| Operations.ExtractHash | server/src/main/kotlin/operations.kt:87 | `extractHashFromFilename` as written, with no ensures; its meaning is stated by ExtractSavedHash and NewHashesAre |
| Operations.SaveName | server/src/main/kotlin/operations.kt:112 | the file name `saveOperationHistory` writes, with no ensures; ExtractSavedHash reads its hash back |
| Operations.IntegrateAgain | server/src/main/kotlin/operations.kt:59-85 | a second integration of the same folder finds nothing and changes nothing |
| Operations.IntegrateGrows | server/src/main/kotlin/operations.kt:76-82 | integrating only adds hashes and keeps every operation |
| Operations.OperationHistory.IntegrateOperations | server/src/main/kotlin/operations.kt:59-85 | true exactly when some file is eligible; then hashes become old ∪ new and operations the normalized new followed by old; otherwise nothing changes |
| Operations.OperationHistory.Merge | server/src/main/kotlin/operations.kt:89-98 | the receiver's state becomes the other's hashes and its normalized operations, its own being discarded |
| Operations.DedupTwice | server/src/main/kotlin/operations.kt:90-97 | normalizing is not changed by removing repeats first |
| Operations.LoadHistory | server/src/main/kotlin/operations.kt:117-122 | a missing file yields nothing |
| Operations.LoadHistoryFirst | server/src/main/kotlin/operations.kt:117-122 | the history loaded under a name is that of the first file with the name |
| Operations.OtherMasters | server/src/main/kotlin/operations.kt:19-20 | the other masters come from the folder |
| Operations.MergeAll | server/src/main/kotlin/operations.kt:25-29 | merging a sequence of masters leaves the state of the last one |
| Operations.LoadAndUpdateOperationHistory | server/src/main/kotlin/operations.kt:14-39 | the history is the master, merged with every other master, then integrated with the unitary folder |
| Operations.MergeEach | server/src/main/kotlin/operations.kt:25-29 | the merge loop gives what MergeAll says |
| Operations.MissingMaster | server/src/main/kotlin/operations.kt:22 | a missing master file gives an empty history |
| Operations.MasterDiscarded | server/src/main/kotlin/operations.kt:89-98 | when other masters exist, the machine's own master does not affect the result |
| SnapshotRewriter.CleanLine | server/src/main/kotlin/parser/AuctionatorParser.kt:54 | a cleaned line has no `[`, `]` or `=`, and only the line's characters or `:` |
| SnapshotRewriter.Body | server/src/main/kotlin/parser/AuctionatorParser.kt:61-70 | an ordinary line loses its commas; `[` appears exactly for the auctions opening and `]` exactly for a tab-brace line |
| SnapshotRewriter.Separator | server/src/main/kotlin/parser/AuctionatorParser.kt:56-59 | a comma and newline come exactly when a comma is pending and the line has no `}` |
| SnapshotRewriter.Rewrite | server/src/main/kotlin/parser/AuctionatorParser.kt:42-81 | the rewritten text, with no ensures; WaitingStep, RecordingStep, NoMarker, MarkerOpens, CloseEnds and NoEquals state its meaning |
| SnapshotRewriter.RewriteSnapshot | server/src/main/kotlin/parser/AuctionatorParser.kt:42-81 | the flag-driven loop builds the text Rewrite defines |
| SnapshotRewriter.RecordLine | server/src/main/kotlin/parser/AuctionatorParser.kt:54-70 | one recorded line appends its separator and body, and the comma flag is set after an ordinary line without `{` |
| SnapshotRewriter.WaitingStep | server/src/main/kotlin/parser/AuctionatorParser.kt:73-77 | before recording, a line is skipped unless it has the marker, which emits `{` and starts recording |
| SnapshotRewriter.RecordingStep | server/src/main/kotlin/parser/AuctionatorParser.kt:47-71 | while recording, a line starting `}` emits `}` and stops; any other line emits its separator and body |
| SnapshotRewriter.NoMarker | server/src/main/kotlin/parser/AuctionatorParser.kt:73-78 | without the marker nothing is emitted |
| SnapshotRewriter.MarkerOpens | server/src/main/kotlin/parser/AuctionatorParser.kt:73-77 | the lines before the first marker emit nothing, and recording starts right after it |
| SnapshotRewriter.CloseEnds | server/src/main/kotlin/parser/AuctionatorParser.kt:49-52 | nothing after the closing line is read, and the text ends with `}` |
| SnapshotRewriter.NoEquals | server/src/main/kotlin/parser/AuctionatorParser.kt:54 | no `=` reaches the JSON text |
| AuctionatorParser.CreateItem | server/src/main/kotlin/parser/AuctionatorParser.kt:94-99 | the name goes in the French slot exactly for FRENCH, and the other slot stays empty |
| AuctionatorParser.ToAuction | server/src/main/kotlin/parser/AuctionatorParser.kt:86-88 | quantity q, bid s, item i, the snapshot time; a buyout of 0 becomes absent and others are kept |
| AuctionatorParser.CreateItems | server/src/main/kotlin/parser/AuctionatorParser.kt:85 | one item per entry, in order |
| AuctionatorParser.ToAuctions | server/src/main/kotlin/parser/AuctionatorParser.kt:86-88 | one listing per entry, in order |
| AuctionatorParser.FromSnapshot | server/src/main/kotlin/parser/AuctionatorParser.kt:84-91 | fails exactly when the snapshot time is outside the Instant range; items have no repeats |
| AuctionatorParser.Parse | server/src/main/kotlin/parser/AuctionatorParser.kt:38-92 | rewrite, decode, then FromSnapshot, with no ensures; FromSnapshot and ItemsCoverAuctions state the result |
| AuctionatorParser.ParseAuctionerFile | server/src/main/kotlin/parser/AuctionatorParser.kt:38-92 | the reader gives what Parse defines: rewrite, decode, then map |
| AuctionatorParser.ItemsCoverAuctions | server/src/main/kotlin/parser/AuctionatorParser.kt:85-88 | every entry's item is among the items, and every item comes from an entry |
| LegacyParser.LegacyItem | src/main/kotlin/parser/parser.kt:71 | every item is French only |
| LegacyParser.LegacyAuction | src/main/kotlin/parser/parser.kt:72 | the buyout is copied, so 0 stays a price |
| LegacyParser.LegacyItems | src/main/kotlin/parser/parser.kt:71 | one item per entry, in order |
| LegacyParser.LegacyAuctions | src/main/kotlin/parser/parser.kt:72 | one listing per entry, in order |
| LegacyParser.LegacyFromSnapshot | src/main/kotlin/parser/parser.kt:70-72 | fails exactly outside the Instant range; items have no repeats and cover the entries |
| LegacyParser.ParseLegacyFile | src/main/kotlin/parser/parser.kt:23-73 | the older reader gives what LegacyParse defines |
| LegacyParser.ZeroBuyout | src/main/kotlin/parser/parser.kt:72 | an entry saved without a buyout is unpriced for the server's reader but becomes the best price 0 for this one |
| Driller.DrillerBuyoutByUnit | driller/src/mingwMain/kotlin/sample/SampleMingw.kt:33 | absent exactly when the buyout is, and otherwise the buyout divided by the quantity |
| Driller.DrillerListing | driller/src/mingwMain/kotlin/sample/SampleMingw.kt:132-134 | a buyout of 0 becomes absent; the fields and the text time are copied |
| Driller.DrillerListings | driller/src/mingwMain/kotlin/sample/SampleMingw.kt:132-134 | one listing per entry, in order |
| Driller.DrillerFromSnapshot | driller/src/mingwMain/kotlin/sample/SampleMingw.kt:130-135 | the time is the decimal text of the snapshot seconds, shared by all listings; items have no repeats |
| Driller.ParseDrillerLines | driller/src/mingwMain/kotlin/sample/SampleMingw.kt:81-136 | the native reader gives what DrillerParse defines, with a literal "\n" separator |
| Driller.TimestampReadsBack | driller/src/mingwMain/kotlin/sample/SampleMingw.kt:130 | the time text reads back as the snapshot seconds |
| Driller.AgreesWithServer | driller/src/mingwMain/kotlin/sample/SampleMingw.kt:130-143 | where the server's reader succeeds, both give the same items and listings that agree field by field |
| ServerMain.BuyoutByUnit | server/src/main/kotlin/main.kt:17 | absent exactly when the buyout is, and otherwise the buyout divided by the quantity |
| ServerMain.Group | server/src/main/kotlin/main.kt:73-74 | the listings of one snapshot: exactly those with that time |
| ServerMain.UnitPrices | server/src/main/kotlin/main.kt:86 | exactly the unit buyouts of the priced listings |
| ServerMain.Min | server/src/main/kotlin/main.kt:86 | an element no greater than any other |
| ServerMain.BestBuyout | server/src/main/kotlin/main.kt:84-88 | `bestBuyout` as written, with no ensures; its meaning is stated by BestBuyoutKeys and BestBuyoutIsMinimum |
| ServerMain.BestBuyoutKeys | server/src/main/kotlin/main.kt:84-88 | a snapshot has a best buyout exactly when one of its listings has a buyout |
| ServerMain.BestBuyoutIsMinimum | server/src/main/kotlin/main.kt:84-88 | the best buyout of a snapshot is one of its unit buyouts, and none is lower |
| ServerMain.AddPrice | server/src/main/kotlin/main.kt:109-117 | the identity once the quantity reaches the limit; otherwise the quantity grows by the whole listing and the price stays between the two prices |
| ServerMain.AddPriceExample | server/src/main/kotlin/main.kt:113-114 | (10, 5) then (20, 5) with a limit of 8 gives (15, 10) |
| ServerMain.Fold | server/src/main/kotlin/main.kt:102 | the reduce keeps a non-negative quantity |
| ServerMain.FoldShort | server/src/main/kotlin/main.kt:102-103 | the folded quantity stays under the limit exactly when the total does |
| ServerMain.FoldStays | server/src/main/kotlin/main.kt:110-111 | once the limit is reached the fold changes nothing |
| ServerMain.FoldBetween | server/src/main/kotlin/main.kt:102 | the folded price stays within the prices folded |
| ServerMain.PricedListings | server/src/main/kotlin/main.kt:99-100 | exactly one (unit price, quantity) per priced listing |
| ServerMain.ByPrice | server/src/main/kotlin/main.kt:101 | the priced listings sorted by unit price, a permutation of them |
| ServerMain.AverageOf | server/src/main/kotlin/main.kt:97-104 | fails with EmptyCollection exactly when no listing is priced |
| ServerMain.AverageShort | server/src/main/kotlin/main.kt:103 | no average exactly when the priced quantity is under n |
| ServerMain.ByPriceEntry | server/src/main/kotlin/main.kt:99-101 | each sorted entry comes from a priced listing |
| ServerMain.ByPriceStable | server/src/main/kotlin/main.kt:101 | listings of equal unit price keep their order in the group |
| ServerMain.ByPriceHas | server/src/main/kotlin/main.kt:99-101 | each priced listing is among the sorted entries |
| ServerMain.AverageCheapest | server/src/main/kotlin/main.kt:97-104 | when the cheapest listings alone cover n, the average is the cheapest unit price |
| ServerMain.AverageBounds | server/src/main/kotlin/main.kt:97-104 | the average lies between the cheapest unit price and any bound on the prices |
| ServerMain.BestAverageBuyout | server/src/main/kotlin/main.kt:90-95 | fails exactly when some snapshot has no priced listing |
| ServerMain.BestAverageBuyoutKeys | server/src/main/kotlin/main.kt:90-95 | a snapshot is kept exactly when its priced quantity reaches n, with its average |
| ServerMain.FindItemByName | server/src/main/kotlin/main.kt:24-26 | the first item whose French or English name is the name, or null when none has it |
| ServerMain.AuctionsOf | server/src/main/kotlin/main.kt:33 | an unknown item fails; otherwise exactly the item's listings |
| ServerMain.ItemFilter | server/src/main/kotlin/main.kt:22 | exactly the listings of the item |
| ServerMain.DatabaseBestBuyout | server/src/main/kotlin/main.kt:32-35 | an unknown item fails; otherwise it is the best buyout of the item's listings, so each value is the unit buyout of one of the item's listings at that time |
| ServerMain.DatabaseBestAverageBuyout | server/src/main/kotlin/main.kt:42-45 | an unknown item fails; otherwise the item's best averages |
| ServerMain.MaxKey | server/src/main/kotlin/main.kt:29 | the greatest key of a non-empty set |
| ServerMain.LatestBestBuyout | server/src/main/kotlin/main.kt:28-30 | an unknown item fails; a value is the best buyout at the greatest time |
| ServerMain.LatestBestBuyoutUnpriced | server/src/main/kotlin/main.kt:28-30 | a known item fails with NoSuchElement exactly when none of its listings is priced |
| ServerMain.BuildItem | server/src/main/kotlin/main.kt:65-70 | the new item when none is stored or the new one is complete; otherwise each name is the stored one, falling back to the new one |
| ServerMain.BuildItemKeepsNames | server/src/main/kotlin/main.kt:65-70 | a name known before or given now is never lost, and merging an item with itself changes nothing |
| ServerLoader.LoadDatabase | server/src/main/kotlin/main.kt:48-63 | the loops give the items indexed by id in first-seen order and all listings in file order |
| ServerLoader.Compute | server/src/main/kotlin/main.kt:57 | `items.compute` keeps a valid index |
| ServerLoader.Index | server/src/main/kotlin/main.kt:56-58 | folding the items gives a valid index |
| ServerLoader.ComputeHas | server/src/main/kotlin/main.kt:57 | compute adds exactly the item's id |
| ServerLoader.IndexIds | server/src/main/kotlin/main.kt:56-58 | the index has exactly the ids of the items seen |
| ServerLoader.ComputeAdds | server/src/main/kotlin/main.kt:57 | the item's id is stored with every name the item has |
| ServerLoader.ComputeKeeps | server/src/main/kotlin/main.kt:57 | names stored earlier survive a later compute |
| ServerLoader.IndexKeepsNames | server/src/main/kotlin/main.kt:56-58 | every name that any file gives an item survives loading |
| ServerLoader.IndexById | server/src/main/kotlin/main.kt:56-58 | each stored item is stored under its own id |
| ServerLoader.ValuesById | server/src/main/kotlin/main.kt:62 | the values have exactly the index's ids, each once |
| ServerLoader.LoadedIds | server/src/main/kotlin/main.kt:52-62 | the loaded items have exactly the ids seen in the files, each once |
| ServerWishList.PairsWith | server/src/main/kotlin/WishList.kt:12 | one (profile, item) per profile the item names |
| ServerWishList.Pairs | server/src/main/kotlin/WishList.kt:11-13 | the (profile, item) pairs in order, with no ensures; SelectPairsWith and SelectPairs state what each profile receives |
| ServerWishList.ByProfile | server/src/main/kotlin/WishList.kt:11-14 | the profile index is a valid insertion-ordered map |
| ServerWishList.ItemsOf | server/src/main/kotlin/WishList.kt:18 | fails with UnknownProfile exactly when the index lacks the profile |
| ServerWishList.SelectPairsWith | server/src/main/kotlin/WishList.kt:12 | an item is paired with a profile once per time it names it |
| ServerWishList.SelectPairs | server/src/main/kotlin/WishList.kt:11-14 | the group of a profile is the items in order, each once per time it names the profile |
| ServerWishList.OccurrencesEmpty | server/src/main/kotlin/WishList.kt:11-14 | a profile has occurrences exactly when some item names it |
| ServerWishList.OccurrencesMembers | server/src/main/kotlin/WishList.kt:11-14 | every occurrence is an item of the list naming the profile |
| ServerWishList.ItemsOfOccurrences | server/src/main/kotlin/WishList.kt:11-18 | `wishListItem(p)` fails exactly when no item names p, and otherwise lists each item once per occurrence of p, in order |
| ServerWishList.Profiles | server/src/main/kotlin/WishList.kt:16 | `profiles()` as the index's keys, with no ensures; ProfilesExact states what they are |
| ServerWishList.ProfilesExact | server/src/main/kotlin/WishList.kt:16 | `profiles()` holds exactly the profiles some item names, each once |
| ServerWishList.ItemsOfMembers | server/src/main/kotlin/WishList.kt:11-14 | only items naming the profile are listed, so an item without profiles is never listed |
| ServerWishList.Entry | server/src/main/kotlin/WishList.kt:26-29 | null exactly when no item has the name; otherwise the first such item's id, and comment, buy and sell prices copied, with missing profiles made empty |
| ServerWishList.LoadWishList | server/src/main/kotlin/WishList.kt:26-29 | `loadWishList` as written, with no ensures; LoadWishListOrder and LoadWishListSources state its meaning |
| ServerWishList.LoadWishListOrder | server/src/main/kotlin/WishList.kt:26-29 | entries are loaded one by one in order, with a name no item has dropped |
| ServerWishList.LoadWishListSources | server/src/main/kotlin/WishList.kt:26-29 | every loaded entry comes from a configured entry and names an item's id |
| LegacyMain.AnalyzerBestBuyout | src/main/kotlin/main.kt:108-111 | fails with UnknownItem exactly when no listing is of the item |
| LegacyMain.AnalyzerAgreesWithServer | src/main/kotlin/main.kt:88-92 | the tool's best buyout rule is the server's |
| LegacyMain.DayGroup | src/main/kotlin/main.kt:83-84 | the listings of one day: exactly those whose time falls on it |
| LegacyMain.BestBuyoutPerDay | src/main/kotlin/main.kt:81-86 | `bestBuyoutPerDay` as written, with no ensures; its meaning is stated by PerDayKeys, PerDayIsMinimum, PerDaySnapshotKeys, PerDayBelowSnapshots and PerDayIsSnapshot |
| LegacyMain.PerDayKeys | src/main/kotlin/main.kt:81-86 | a day has a best buyout exactly when one of its listings has a buyout |
| LegacyMain.PerDayIsMinimum | src/main/kotlin/main.kt:81-86 | the best buyout of a day is one of its unit buyouts, and none is lower |
| LegacyMain.PerDaySnapshotKeys | src/main/kotlin/main.kt:81-86 | a day has a best buyout exactly when one of its snapshots has one |
| LegacyMain.PerDayBelowSnapshots | src/main/kotlin/main.kt:81-86 | a day's best buyout is no higher than any of its snapshots' |
| LegacyMain.PerDayIsSnapshot | src/main/kotlin/main.kt:81-86 | a day's best buyout is that of one of its snapshots |
| LegacyMain.AnalyzerBestBuyoutPerDay | src/main/kotlin/main.kt:113-116 | an unknown item fails with UnknownItem; otherwise the per-day best buyouts of the item's listings |
| LegacyMain.Entry | src/main/kotlin/main.kt:31-34 | null exactly when no item has the name; otherwise the first such item's id with the price copied |
| LegacyMain.LoadWishList | src/main/kotlin/main.kt:31-34 | `loadWishList` as written, with no ensures; LoadWishListOrder and LoadWishListSources state its meaning |
| LegacyMain.LoadWishListOrder | src/main/kotlin/main.kt:31-34 | entries are loaded one by one in order, with a name no item has dropped |
| LegacyMain.LoadWishListSources | src/main/kotlin/main.kt:31-34 | every loaded entry comes from a configured entry, keeps its price, and names an item's id |

## Left out

- File I/O is not modelled: reading lines, writing results, backups, `mkdirs` and `listFiles`. Lines and folder contents are inputs, and files come in the order given.
- Gson and kotlinx JSON decoding and encoding are not modelled. The decoder is a parameter; saving histories and results is left out.
- `readStockFromTsm` (server/src/main/kotlin/parser/tsmParser.kt:42-62) is not modelled as one pipeline. It needs the clock and the file system. It also hands `tokenize2` tokens to a builder over the newer token type, which the models' separate token types do not allow. Its parts are each modelled.
- `saveOperationHistory` (server/src/main/kotlin/operations.kt:101-115) needs SHA-256 and the file system. Hashes are opaque text without `-` or `.`, and only the file-name shape is modelled (Operations.ExtractSavedHash).
- `computerName` reads environment variables; the name is an input.
- `main` of tsmParser.kt, of both main.kt files and of the driller are left out. So are the `println` calls, the driller's `fgets` reading (whose lines keep their trailing newline, passed in as given), and `toString` of the stock classes.
- `Auction.bidByUnit` is left out because nothing uses it.
- `Database.bestBuyoutPerDay` of the server (server/src/main/kotlin/main.kt:37-40, 77-82) is the same computation as LegacyMain.AnalyzerBestBuyoutPerDay over the database's listings, and is modelled only there.
- The older copies of `findItemByName`, `buildItem`, `ItemAuctions.bestBuyout` and `loadResultFiles` in src/main/kotlin/main.kt are those of the server, modelled once in ServerMain and ServerLoader.
- server/src/main/kotlin/wishList.kt is the same `mapNotNull` mapping as WishList.kt without profiles, and is not modelled separately.
- LegacyMain.BestBuyoutPerDay: the time zone is a parameter `day` from epoch seconds to a day number. The order in which each day's snapshots are flattened is not modelled, because the minimum does not depend on it.
- Double arithmetic is modelled as exact `real` arithmetic, with no rounding, infinity or NaN. Listing quantities are assumed positive (ServerMain.Positive).
- Decimal.DoubleToString covers the decimals the tokenizer creates, not binary doubles. Shortest round-trip digit selection is not modelled.
- Stock.NumericItems: server/src/main/kotlin/stock.kt:51 tests `is DoubleLiteral`, a class the repository does not define; the model reads it as the number literal of server/src/main/kotlin/parser/ast.kt:30 (LongLiteral, which holds the token's Double).
- Characters are classified on ASCII only: `isDigit`, `isLetter`, case folding in `toBoolean`, and the digits Text.ParseLong accepts for `toLong` and `Long.parseLong`, where Java also accepts other Unicode decimal digits.
- `longLogic` on a `-` not followed by a digit: `"-".toDouble()` throws, so the model fails with NumberFormat. No rewind without end is modelled.
- ServerMain.AddPrice: quantities are unbounded integers, so Long overflow of the running quantity is not modelled.
- The Long range of Auctionator fields is not enforced: quantities, bids, buyouts and item ids are plain integers.
- Stock.Stock.GetItemInStock: the order of the entries is not stated, only which entries there are, one per (character, slot).
- `Instant` is modelled as whole epoch seconds; nanoseconds and `toEpochMilli` naming are left out.
- The line separator of the server and stand-alone readers is a parameter (`System.lineSeparator()`).
