/**
  ArgumentParser.java: splitting a line at the spaces outside quotes, and reading
  "-name value" pairs from the pieces.
 */
module ArgumentParser {
  import opened Options

  /* Splitting. */

  predicate IsQuote(c: char) { c == '\'' || c == '"' }

  function Flush(word: string): seq<string> { if word == "" then [] else [word] }

  // What is read from the rest of the input inside the given quote, if any, with
  // word under way.
  function SplitFrom(input: string, quote: Option<char>, word: string): seq<string> {
    if input == "" then Flush(word)
    else
      var c, rest := input[0], input[1..];
      if IsQuote(c) && quote == None then SplitFrom(rest, Some(c), word)
      else if quote == Some(c) then SplitFrom(rest, None, word)
      else if c == ' ' && quote == None then Flush(word) + SplitFrom(rest, None, "")
      else SplitFrom(rest, quote, word + [c])
  }

  method SplitIgnoringQuotes(rawArguments: string) returns (result: seq<string>)
    ensures result == SplitFrom(rawArguments, None, "")
  {
    result := [];
    var currentQuote: Option<char>, resultingString := None, "";
    for i := 0 to |rawArguments|
      invariant currentQuote.Some? ==> IsQuote(currentQuote.value)
      invariant SplitFrom(rawArguments, None, "") ==
                result + SplitFrom(rawArguments[i..], currentQuote, resultingString)
    {
      var c, useCurrentChar := rawArguments[i], false;
      assert rawArguments[i..][1..] == rawArguments[i + 1..];
      if IsQuote(c) {
        if currentQuote == None {
          currentQuote := Some(c);
        } else if currentQuote == Some(c) {
          currentQuote := None;
        } else {
          useCurrentChar := true;
        }
      } else if c == ' ' {
        if currentQuote == None {
          if |resultingString| != 0 { result := result + [resultingString]; }
          resultingString := "";
        } else {
          useCurrentChar := true;
        }
      } else {
        useCurrentChar := true;
      }
      if useCurrentChar { resultingString := resultingString + [c]; }
    }
    if |resultingString| != 0 { result := result + [resultingString]; }
  }

  /* Quoting. */

  // A part of a word: bare, or in a quote it does not contain.
  datatype Part = Bare(text: string) | Quoted(text: string, quote: char)

  predicate Printable(p: Part) {
    match p
    case Bare(text) => forall c :: c in text ==> c != ' ' && c != '"' && c != '\''
    case Quoted(text, quote) => (quote == '"' || quote == '\'') && quote !in text
  }

  function PrintPart(p: Part): string {
    match p
    case Bare(text) => text
    case Quoted(text, quote) => [quote] + text + [quote]
  }

  type Word = seq<Part>

  function Text(w: Word): string { if w == [] then "" else w[0].text + Text(w[1..]) }

  function PrintWord(w: Word): string { if w == [] then "" else PrintPart(w[0]) + PrintWord(w[1..]) }

  ghost predicate PrintableWord(w: Word) { forall p :: p in w ==> Printable(p) }

  function Texts(ws: seq<Word>): seq<string> { if ws == [] then [] else [Text(ws[0])] + Texts(ws[1..]) }

  // The words with single spaces between them.
  function PrintLine(ws: seq<Word>): string {
    if ws == [] then "" else if |ws| == 1 then PrintWord(ws[0]) else PrintWord(ws[0]) + " " + PrintLine(ws[1..])
  }

  // Characters that stand for themselves are read into the word.
  lemma {:induction false} ReadsText(text: string, rest: string, quote: Option<char>, word: string)
    requires forall c :: c in text ==> quote != Some(c) && (quote == None ==> c != ' ' && !IsQuote(c))
    ensures SplitFrom(text + rest, quote, word) == SplitFrom(rest, quote, word + text)
  {
    if text == "" {
      assert text + rest == rest && word + text == word;
    } else {
      ReadsText(text[1..], rest, quote, word + [text[0]]);
      assert (text + rest)[1..] == text[1..] + rest;
      assert word + [text[0]] + text[1..] == word + text;
    }
  }

  lemma ReadsPart(p: Part, rest: string, word: string)
    requires Printable(p)
    ensures SplitFrom(PrintPart(p) + rest, None, word) == SplitFrom(rest, None, word + p.text)
  {
    match p {
      case Bare(text) => ReadsText(text, rest, None, word);
      case Quoted(text, quote) =>
        var tail := [quote] + rest;
        assert PrintPart(p) + rest == [quote] + (text + tail);
        assert ([quote] + (text + tail))[1..] == text + tail && tail[1..] == rest;
        ReadsText(text, tail, Some(quote), word);
    }
  }

  lemma {:induction false} ReadsWord(w: Word, rest: string, word: string)
    requires PrintableWord(w)
    ensures SplitFrom(PrintWord(w) + rest, None, word) == SplitFrom(rest, None, word + Text(w))
  {
    hide SplitFrom;
    if w == [] {
      assert PrintWord(w) + rest == rest && word + Text(w) == word;
    } else {
      var tail := PrintWord(w[1..]) + rest;
      assert PrintWord(w) + rest == PrintPart(w[0]) + tail;
      ReadsPart(w[0], tail, word);
      ReadsWord(w[1..], rest, word + w[0].text);
      assert word + w[0].text + Text(w[1..]) == word + Text(w);
    }
  }

  lemma ReadsSpace(word: string, rest: string)
    ensures SplitFrom(" " + rest, None, word) == Flush(word) + SplitFrom(rest, None, "")
  {
    assert (" " + rest)[1..] == rest;
  }

  lemma NothingLeft()
    ensures forall word :: SplitFrom("", None, word) == Flush(word)
  {
  }

  // However the words are put into quotes, splitting gives the words again; an
  // empty word is lost, and nothing else.
  lemma {:induction false} SplitInvertsPrint(ws: seq<Word>)
    requires forall w :: w in ws ==> PrintableWord(w)
    ensures SplitFrom(PrintLine(ws), None, "") == NonEmpty(Texts(ws))
  {
    hide SplitFrom, Text, PrintWord;
    NothingLeft();
    if ws != [] {
      var first, text := PrintWord(ws[0]), Text(ws[0]);
      assert "" + text == text;
      if |ws| == 1 {
        assert first + "" == first;
        ReadsWord(ws[0], "", "");
        assert Texts(ws) == [text];
      } else {
        var tail := PrintLine(ws[1..]);
        ReadsWord(ws[0], " " + tail, "");
        ReadsSpace(text, tail);
        assert PrintLine(ws) == first + (" " + tail) && (" " + tail)[1..] == tail;
        SplitInvertsPrint(ws[1..]);
      }
    }
  }

  // A quote that is not closed reaches to the end of the line.
  lemma OpenQuote(w: Word, quote: char, text: string)
    requires PrintableWord(w) && (quote == '"' || quote == '\'') && quote !in text
    ensures SplitFrom(PrintWord(w) + [quote] + text, None, "") ==
            if Text(w) + text == "" then [] else [Text(w) + text]
  {
    var rest := [quote] + text;
    assert PrintWord(w) + [quote] + text == PrintWord(w) + rest && "" + Text(w) == Text(w);
    ReadsWord(w, rest, "");
    assert rest[1..] == text && text + "" == text;
    ReadsText(text, "", Some(quote), Text(w));
  }

  function NonEmpty(words: seq<string>): seq<string> {
    if words == [] then [] else Flush(words[0]) + NonEmpty(words[1..])
  }

  lemma {:induction false} NothingEmpty(words: seq<string>)
    requires "" !in words
    ensures NonEmpty(words) == words
  {
    if words != [] {
      NothingEmpty(words[1..]);
      assert words == [words[0]] + words[1..];
    }
  }

  // One way to quote that works for every token: each character in the quote it is not.
  function QuoteToken(token: string): (w: Word)
    ensures Text(w) == token && PrintableWord(w)
  {
    if token == "" then []
    else [Quoted([token[0]], if token[0] == '"' then '\'' else '"')] + QuoteToken(token[1..])
  }

  function QuoteTokens(tokens: seq<string>): (ws: seq<Word>)
    ensures Texts(ws) == tokens && forall w :: w in ws ==> PrintableWord(w)
  {
    if tokens == [] then [] else [QuoteToken(tokens[0])] + QuoteTokens(tokens[1..])
  }

  lemma EveryTokenCanBeQuoted(tokens: seq<string>)
    ensures SplitFrom(PrintLine(QuoteTokens(tokens)), None, "") == tokens <==> "" !in tokens
  {
    SplitInvertsPrint(QuoteTokens(tokens));
    if "" !in tokens { NothingEmpty(tokens); } else { NonEmptyHasNoEmpty(tokens); }
  }

  lemma {:induction false} NonEmptyHasNoEmpty(words: seq<string>)
    ensures "" !in NonEmpty(words)
  {
    if words != [] { NonEmptyHasNoEmpty(words[1..]); }
  }

  /* Names and values. */

  // String.trim
  function Trim(s: string): string {
    TrimEnd(TrimStart(s))
  }

  function TrimStart(s: string): string {
    if s != "" && s[0] <= ' ' then TrimStart(s[1..]) else s
  }

  function TrimEnd(s: string): string {
    if s != "" && s[|s| - 1] <= ' ' then TrimEnd(s[..|s| - 1]) else s
  }

  function Unquote(s: string): string {
    if |s| >= 2 && IsQuote(s[0]) && s[|s| - 1] == s[0] then s[1..|s| - 1] else s
  }

  datatype Arguments = Arguments(values: map<string, string>) | NoValue(name: string) | NoDash(name: string) | NoName

  // The arguments in the tokens, added to those of m.
  function ArgumentsFrom(tokens: seq<string>, m: map<string, string>): Arguments {
    if tokens == [] then Arguments(m)
    else
      var name := Trim(tokens[0]);
      if |tokens| == 1 then NoValue(name)
      else if name == "" || name[0] != '-' then NoDash(name)
      else if |name| < 2 then NoName
      else ArgumentsFrom(tokens[2..], m[name[1..] := Unquote(Trim(tokens[1]))])
  }

  method ToMap(rawArguments: string) returns (r: Arguments)
    ensures r == ArgumentsFrom(SplitFrom(rawArguments, None, ""), map[])
  {
    var parsedArg := SplitIgnoringQuotes(rawArguments);
    var argumentsMap: map<string, string>, i := map[], 0;
    assert parsedArg[0..] == parsedArg;
    while i < |parsedArg|
      invariant 0 <= i <= |parsedArg|
      invariant ArgumentsFrom(parsedArg, map[]) == ArgumentsFrom(parsedArg[i..], argumentsMap)
    {
      var argument := Trim(parsedArg[i]);
      if i == |parsedArg| - 1 { return NoValue(argument); }
      if argument == "" || argument[0] != '-' { return NoDash(argument); }
      if |argument| < 2 { return NoName; }
      var value := Unquote(Trim(parsedArg[i + 1]));
      assert parsedArg[i..][2..] == parsedArg[i + 2..];
      argumentsMap := argumentsMap[argument[1..] := value];
      i := i + 2;
    }
    r := Arguments(argumentsMap);
  }

  /* Printing arguments. */

  datatype Argument = Argument(name: string, value: string)

  function Tokens(arguments: seq<Argument>): seq<string> {
    if arguments == [] then []
    else ["-" + arguments[0].name, arguments[0].value] + Tokens(arguments[1..])
  }

  // Later arguments replace earlier ones of their name.
  function ValuesOf(arguments: seq<Argument>, m: map<string, string>): map<string, string> {
    if arguments == [] then m else ValuesOf(arguments[1..], m[arguments[0].name := arguments[0].value])
  }

  // Neither trimming nor unquoting changes the name and the value.
  predicate Plain(a: Argument) {
    && a.name != "" && a.name[|a.name| - 1] > ' '
    && a.value != "" && a.value[0] > ' ' && a.value[|a.value| - 1] > ' ' && Unquote(a.value) == a.value
  }

  lemma TrimOfPlain(a: Argument)
    requires Plain(a)
    ensures Trim("-" + a.name) == "-" + a.name && Unquote(Trim(a.value)) == a.value
  {
  }

  lemma {:induction false} TokensRead(arguments: seq<Argument>, m: map<string, string>)
    requires forall a :: a in arguments ==> Plain(a)
    ensures ArgumentsFrom(Tokens(arguments), m) == Arguments(ValuesOf(arguments, m)) && "" !in Tokens(arguments)
  {
    if arguments != [] {
      var a := arguments[0];
      TrimOfPlain(a);
      assert Tokens(arguments)[2..] == Tokens(arguments[1..]);
      TokensRead(arguments[1..], m[a.name := a.value]);
    }
  }

  // Whatever way the arguments are quoted, parsing the line gives their names and
  // values.
  lemma ArgumentsRoundTrip(arguments: seq<Argument>, ws: seq<Word>)
    requires forall a :: a in arguments ==> Plain(a)
    requires Texts(ws) == Tokens(arguments) && forall w :: w in ws ==> PrintableWord(w)
    ensures ArgumentsFrom(SplitFrom(PrintLine(ws), None, ""), map[]) == Arguments(ValuesOf(arguments, map[]))
  {
    SplitInvertsPrint(ws);
    TokensRead(arguments, map[]);
    NothingEmpty(Tokens(arguments));
  }

  lemma {:induction false} TrimEndIs(s: string)
    ensures |TrimEnd(s)| <= |s| && (TrimEnd(s) == s <==> s == "" || s[|s| - 1] > ' ')
    ensures s != "" && s[0] > ' ' ==> TrimEnd(s) != "" && TrimEnd(s)[0] == s[0]
  {
    if s != "" && s[|s| - 1] <= ' ' { TrimEndIs(s[..|s| - 1]); }
  }

  lemma {:induction false} TrimIs(s: string)
    ensures |Trim(s)| <= |s| && (Trim(s) == s <==> s == "" || (s[0] > ' ' && s[|s| - 1] > ' '))
  {
    TrimEndIs(s);
    TrimEndIs(TrimStart(s));
    if s != "" && s[0] <= ' ' {
      TrimIs(s[1..]);
    }
  }

  // Being plain is exactly what an argument needs to come back as it was.
  lemma PlainExactly(a: Argument)
    ensures var line := PrintLine(QuoteTokens(Tokens([a])));
            ArgumentsFrom(SplitFrom(line, None, ""), map[]) == Arguments(map[a.name := a.value]) <==> Plain(a)
  {
    var name, tokens := "-" + a.name, Tokens([a]);
    SplitInvertsPrint(QuoteTokens(tokens));
    assert [a][1..] == [] && tokens == [name, a.value] + Tokens([a][1..]);
    assert tokens == [name, a.value];
    TrimIs(name);
    TrimIs(a.value);
    TrimEndIs(name);
    if a.value == "" {
      assert NonEmpty(tokens) == [name] + NonEmpty([a.value]) == [name];
    } else {
      NothingEmpty(tokens);
      var read, value := Trim(name), Unquote(Trim(a.value));
      if |read| >= 2 {
        assert tokens[2..] == [];
        assert ArgumentsFrom(tokens, map[]) == Arguments(map[read[1..] := value]);
        SameEntry(read[1..], value, a.name, a.value);
        assert read == [read[0]] + read[1..];
      }
    }
  }

  lemma SameEntry(k: string, v: string, k': string, v': string)
    ensures map[k := v] == map[k' := v'] <==> k == k' && v == v'
  {
    var m, m' := map[k := v], map[k' := v'];
    if m == m' {
      assert k in m;
      assert k in m' && m'[k] == v;
    }
  }

  /* Trimming, unquoting and errors. */

  predicate Blank(s: string) { forall i :: 0 <= i < |s| ==> s[i] as int <= 0x20 }

  // Trimming drops exactly the blanks around a text.
  lemma {:induction false} TrimDrops(a: string, text: string, b: string)
    requires Blank(a) && Blank(b)
    requires text != "" ==> text[0] as int > 0x20 && text[|text| - 1] as int > 0x20
    ensures Trim(a + text + b) == text
    decreases |a| + |b|
  {
    if a != "" {
      assert a + text + b == [a[0]] + (a[1..] + text + b);
      TrimDrops(a[1..], text, b);
    } else if b != "" {
      var c := b[..|b| - 1];
      assert a + text + b == text + c + [b[|b| - 1]] && a + text + c == text + c;
      TrimDrops(a, text, c);
      assert (text + c + [b[|b| - 1]])[..|text + c|] == text + c;
      if text == "" { assert text + c + [b[|b| - 1]] == b; BlankIsNothing(b); }
    } else {
      assert a + text + b == text;
    }
  }

  lemma {:induction false} BlankIsNothing(s: string)
    requires Blank(s)
    ensures TrimStart(s) == ""
  {
    if s != "" { BlankIsNothing(s[1..]); }
  }

  // And every string is a text with blanks around it.
  lemma {:induction false} TrimDivides(s: string) returns (a: string, b: string)
    ensures Blank(a) && Blank(b) && s == a + Trim(s) + b
    ensures Trim(s) != "" ==> Trim(s)[0] as int > 0x20 && Trim(s)[|Trim(s)| - 1] as int > 0x20
    decreases |s|
  {
    a, b := "", "";
    if s != "" && s[0] <= ' ' {
      a, b := TrimDivides(s[1..]);
      a := [s[0]] + a;
    } else if s != "" && s[|s| - 1] <= ' ' {
      a, b := TrimDivides(s[..|s| - 1]);
      b := b + [s[|s| - 1]];
    }
  }

  // Unquoting drops a pair of the same quotes around a text, and does nothing else.
  lemma UnquoteExactly(s: string)
    ensures forall text: string :: s == "'" + text + "'" || s == "\"" + text + "\"" ==> Unquote(s) == text
    ensures |s| < 2 || s[0] != s[|s| - 1] || (s[0] != '\'' && s[0] != '"') ==> Unquote(s) == s
  {
    forall text: string | s == "'" + text + "'" || s == "\"" + text + "\"" ensures Unquote(s) == text {
      assert s[1..|s| - 1] == text;
    }
  }

  // A name and a value: the name has a dash and something behind it.
  predicate Pair(tokens: seq<string>, k: nat)
    requires 2 * k < |tokens|
  {
    2 * k + 1 < |tokens| && var name := Trim(tokens[2 * k]); |name| >= 2 && name[0] == '-'
  }

  // The first thing that is no pair decides which error it is.
  lemma {:induction false} FirstOffence(tokens: seq<string>, m: map<string, string>, k: nat)
    requires 2 * k < |tokens| && !Pair(tokens, k) && forall j :: 0 <= j < k ==> Pair(tokens, j)
    ensures var name := Trim(tokens[2 * k]);
            ArgumentsFrom(tokens, m) ==
            if |tokens| == 2 * k + 1 then NoValue(name)
            else if name == "-" then NoName
            else NoDash(name)
  {
    hide Trim, Unquote;
    if k == 0 {
      var name := Trim(tokens[0]);
      if |name| == 1 { assert name == [name[0]]; }
    } else {
      var value := Unquote(Trim(tokens[1]));
      assert Pair(tokens, 0);
      forall j | 0 <= j < k ensures Pair(tokens[2..], j) <==> Pair(tokens, j + 1) {
      }
      forall j | 0 <= j < k - 1 ensures Pair(tokens[2..], j) {
        assert Pair(tokens, j + 1);
      }
      FirstOffence(tokens[2..], m[Trim(tokens[0])[1..] := value], k - 1);
    }
  }

  // The arguments that the pairs stand for.
  function Named(tokens: seq<string>): seq<Argument> {
    if |tokens| < 2 || Trim(tokens[0]) == "" then []
    else [Argument(Trim(tokens[0])[1..], Unquote(Trim(tokens[1])))] + Named(tokens[2..])
  }

  // Without an offence every pair counts.
  lemma {:induction false} AllPairs(tokens: seq<string>, m: map<string, string>)
    requires forall j :: 0 <= 2 * j < |tokens| ==> Pair(tokens, j)
    ensures ArgumentsFrom(tokens, m) == Arguments(ValuesOf(Named(tokens), m))
    decreases |tokens|
  {
    hide Trim, Unquote;
    if tokens != [] {
      assert Pair(tokens, 0);
      forall j | 0 <= 2 * j < |tokens[2..]| ensures Pair(tokens[2..], j) {
        assert Pair(tokens, j + 1);
      }
      AllPairs(tokens[2..], m[Trim(tokens[0])[1..] := Unquote(Trim(tokens[1]))]);
    }
  }

  predicate LastNamed(arguments: seq<Argument>, i: nat, name: string)
    requires i < |arguments|
  {
    arguments[i].name == name && forall j :: i < j < |arguments| ==> arguments[j].name != name
  }

  // The last argument of a name gives its value.
  lemma {:induction false} LastCounts(arguments: seq<Argument>, m: map<string, string>, name: string)
    ensures var v := ValuesOf(arguments, m);
            && (name in v <==> name in m || exists a :: a in arguments && a.name == name)
            && (forall i :: 0 <= i < |arguments| && LastNamed(arguments, i, name) ==> v[name] == arguments[i].value)
            && (name in m && (forall a :: a in arguments ==> a.name != name) ==> v[name] == m[name])
  {
    if arguments != [] {
      var a, rest := arguments[0], arguments[1..];
      LastCounts(rest, m[a.name := a.value], name);
      forall i | 0 <= i < |arguments| && LastNamed(arguments, i, name)
        ensures ValuesOf(arguments, m)[name] == arguments[i].value
      {
        if i > 0 {
          assert LastNamed(rest, i - 1, name);
        } else {
          assert forall b :: b in rest ==> exists j :: 0 < j < |arguments| && b == arguments[j];
        }
      }
    }
  }
}
