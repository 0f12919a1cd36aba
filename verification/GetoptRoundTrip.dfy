/**
  Round trip between argument lists and what getopt makes of them.  Options are
  declared, and an argument list is written out word by word: letters clustered or
  not, arguments attached or separate, non-options.  Parsing it gives exactly the
  events, the arguments and the non-options that were written, and every argument
  list can be written so.
 */
module GetoptRoundTrip {
  import opened Options
  import opened GetoptSpec

  /* Option strings. */

  datatype Decl = Decl(letter: char, kind: Kind)

  predicate Declarable(decls: seq<Decl>) {
    forall i :: 0 <= i < |decls| ==> decls[i].letter != ':' && decls[i].kind != Unknown
  }

  function Colons(kind: Kind): string {
    match kind
    case Required => ":"
    case Optional => "::"
    case _ => ""
  }

  function Declare(decls: seq<Decl>): string {
    if decls == [] then "" else [decls[0].letter] + Colons(decls[0].kind) + Declare(decls[1..])
  }

  // A leading colon asks for ':' instead of '?' when an argument is missing.
  function OptString(colon: bool, decls: seq<Decl>): string {
    (if colon then ":" else "") + Declare(decls)
  }

  // The first declaration of a letter counts.
  function KindIn(decls: seq<Decl>, c: char): Kind {
    if decls == [] then Unknown else if decls[0].letter == c then decls[0].kind else KindIn(decls[1..], c)
  }

  lemma {:induction false} IndexSkips(p: string, s: string, c: char)
    requires c !in p
    ensures IndexOf(p + s, c) == match IndexOf(s, c) case None => None case Some(i) => Some(|p| + i)
  {
    if p == "" {
      assert p + s == s;
    } else {
      assert (p + s)[1..] == p[1..] + s;
      IndexSkips(p[1..], s, c);
    }
  }

  lemma KindSkips(p: string, s: string, c: char)
    requires c !in p
    ensures KindOf(p + s, c) == KindOf(s, c)
  {
    IndexSkips(p, s, c);
  }

  lemma KindFirst(c: char, kind: Kind, s: string)
    requires c != ':' && kind != Unknown && (s == "" || s[0] != ':')
    ensures KindOf([c] + Colons(kind) + s, c) == kind
  {
    var t := [c] + Colons(kind) + s;
    assert IndexOf(t, c) == Some(0);
    assert t == [c] + (Colons(kind) + s);
  }

  lemma {:induction false} KindOfDeclared(decls: seq<Decl>, c: char)
    requires Declarable(decls) && c != ':'
    ensures KindOf(Declare(decls), c) == KindIn(decls, c)
  {
    hide KindOf;
    if decls == [] {
      NoKind(c);
    } else {
      var d, more := decls[0], Declare(decls[1..]);
      if d.letter == c {
        KindFirst(c, d.kind, more);
      } else {
        KindSkips([d.letter] + Colons(d.kind), more, c);
        KindOfDeclared(decls[1..], c);
      }
    }
  }

  lemma NoKind(c: char)
    ensures KindOf("", c) == Unknown
  {
  }

  // An option string says of each character what was declared.
  lemma KindOfLetter(colon: bool, decls: seq<Decl>, c: char)
    requires Declarable(decls)
    ensures KindOf(OptString(colon, decls), c) == KindIn(decls, c)
  {
    if c == ':' {
      NeverDeclared(decls);
    } else {
      KindOfDeclared(decls, c);
      KindSkips(if colon then ":" else "", Declare(decls), c);
    }
  }

  lemma {:induction false} NeverDeclared(decls: seq<Decl>)
    requires Declarable(decls)
    ensures KindIn(decls, ':') == Unknown
  {
    if decls != [] { NeverDeclared(decls[1..]); }
  }

  // The letter of a missing argument's event.
  lemma MissingLetter(colon: bool, decls: seq<Decl>)
    requires Declarable(decls)
    ensures MissingCode(OptString(colon, decls)) == if colon then ':' else '?'
  {
  }

  /* Argument lists. */

  // A word of the command line.  letters: each without an argument, declared or not.
  datatype Word =
    | Other(arg: string)
    | Letters(letters: string)
    | Attached(letters: string, c: char, arg: string)
    | Separate(letters: string, c: char, arg: string)
    | Bare(letters: string, c: char)    // the optional argument is absent

  datatype Tail =
    | End
    | DoubleDash(after: seq<string>)
    | NoArgument(letters: string, c: char)

  function Show(w: Word): seq<string> {
    match w
    case Other(arg) => [arg]
    case Letters(letters) => ["-" + letters]
    case Attached(letters, c, arg) => ["-" + letters + [c] + arg]
    case Separate(letters, c, arg) => ["-" + letters + [c], arg]
    case Bare(letters, c) => ["-" + letters + [c]]
  }

  function ShowAll(words: seq<Word>): seq<string> {
    if words == [] then [] else Show(words[0]) + ShowAll(words[1..])
  }

  function ShowTail(tail: Tail): seq<string> {
    match tail
    case End => []
    case DoubleDash(after) => ["--"] + after
    case NoArgument(letters, c) => ["-" + letters + [c]]
  }

  predicate NoArguments(decls: seq<Decl>, letters: string) {
    forall i :: 0 <= i < |letters| ==> var k := KindIn(decls, letters[i]); k == Plain || k == Unknown
  }

  predicate Good(decls: seq<Decl>, w: Word) {
    match w
    case Other(arg) => arg == "" || arg[0] != '-' || arg == "-"
    case Letters(letters) => letters != "" && letters != "-" && NoArguments(decls, letters)
    case Attached(letters, c, arg) =>
      arg != "" && NoArguments(decls, letters) && (KindIn(decls, c) == Required || KindIn(decls, c) == Optional)
    case Separate(letters, c, arg) => Ends(decls, letters, c) && KindIn(decls, c) == Required
    case Bare(letters, c) => Ends(decls, letters, c) && KindIn(decls, c) == Optional
  }

  // The element is not "--".
  predicate Ends(decls: seq<Decl>, letters: string, c: char) {
    NoArguments(decls, letters) && letters + [c] != "-"
  }

  predicate GoodTail(decls: seq<Decl>, tail: Tail) {
    tail.NoArgument? ==> Ends(decls, tail.letters, tail.c) && KindIn(decls, tail.c) == Required
  }

  predicate AllGood(decls: seq<Decl>, words: seq<Word>) {
    forall i :: 0 <= i < |words| ==> Good(decls, words[i])
  }

  /* What they mean. */

  function LetterEvents(decls: seq<Decl>, letters: string): seq<Event> {
    if letters == "" then []
    else [if KindIn(decls, letters[0]) == Unknown then Event('?', None, Some(letters[0]))
          else Event(letters[0], None, None)]
         + LetterEvents(decls, letters[1..])
  }

  function EventsOf(decls: seq<Decl>, w: Word): seq<Event> {
    match w
    case Other(_) => []
    case Letters(letters) => LetterEvents(decls, letters)
    case Attached(letters, c, arg) => LetterEvents(decls, letters) + [Event(c, Some(arg), None)]
    case Separate(letters, c, arg) => LetterEvents(decls, letters) + [Event(c, Some(arg), None)]
    case Bare(letters, c) => LetterEvents(decls, letters) + [Event(c, None, None)]
  }

  function Means(decls: seq<Decl>, words: seq<Word>, last: Parse): Parse {
    if words == [] then last
    else
      var w, p := words[0], Means(decls, words[1..], last);
      if w.Other? then Parse(p.events, p.opts, [w.arg] + p.rest, p.end)
      else Parse(EventsOf(decls, w) + p.events, Show(w) + p.opts, p.rest, p.end)
  }

  function TailMeans(colon: bool, decls: seq<Decl>, tail: Tail): Parse {
    match tail
    case End => Parse([], [], [], Exhausted)
    case DoubleDash(after) => Parse([], ["--"], after, Dashes)
    case NoArgument(letters, c) =>
      Parse(LetterEvents(decls, letters) + [Event(if colon then ':' else '?', None, Some(c))],
            ShowTail(tail), [], Missing)
  }

  /* The round trip. */

  lemma OneLetter(colon: bool, decls: seq<Decl>, c: char, tail: string, args: seq<string>)
    requires Declarable(decls) && tail != "" && args != []
    requires KindIn(decls, c) == Plain || KindIn(decls, c) == Unknown
    ensures ParseFrom(OptString(colon, decls), [c] + tail, args) ==
            Prepend([if KindIn(decls, c) == Unknown then Event('?', None, Some(c)) else Event(c, None, None)], [], [],
                    ParseFrom(OptString(colon, decls), tail, args))
  {
    hide KindOf, OptString;
    KindOfLetter(colon, decls, c);
    assert ([c] + tail)[1..] == tail;
    assert ParseFrom(OptString(colon, decls), [c] + tail, args) == ParseChar(OptString(colon, decls), [c] + tail, args);
  }

  // What the scan makes of an element once its letters without arguments are read.
  lemma {:induction false} LettersParse(colon: bool, decls: seq<Decl>, letters: string, next: string,
                                        args: seq<string>)
    requires Declarable(decls) && NoArguments(decls, letters) && next != "" && args != []
    ensures var optstring := OptString(colon, decls);
            ParseFrom(optstring, letters + next, args)
            == Prepend(LetterEvents(decls, letters), [], [], ParseFrom(optstring, next, args))
  {
    hide ParseFrom, KindOf, OptString, Prepend, LetterEvents;
    var p := ParseFrom(OptString(colon, decls), next, args);
    if letters == "" {
      assert letters + next == next;
      NoLetters(decls, p);
    } else {
      assert letters + next == [letters[0]] + (letters[1..] + next);
      OneLetter(colon, decls, letters[0], letters[1..] + next, args);
      LettersParse(colon, decls, letters[1..], next, args);
      FirstLetter(decls, letters, p);
    }
  }

  lemma NoLetters(decls: seq<Decl>, p: Parse)
    ensures Prepend(LetterEvents(decls, ""), [], [], p) == p
  {
    assert [] + p.events == p.events && [] + p.opts == p.opts && [] + p.rest == p.rest;
  }

  lemma FirstLetter(decls: seq<Decl>, letters: string, p: Parse)
    requires letters != ""
    ensures var c := letters[0];
            Prepend(LetterEvents(decls, letters), [], [], p) ==
            Prepend([if KindIn(decls, c) == Unknown then Event('?', None, Some(c)) else Event(c, None, None)], [], [],
                    Prepend(LetterEvents(decls, letters[1..]), [], [], p))
  {
    var e := LetterEvents(decls, letters)[0];
    PrependTwice([e], LetterEvents(decls, letters[1..]), [], p);
  }

  // An element that is scanned for options.
  lemma ElementParses(optstring: string, text: string, args: seq<string>)
    requires args != [] && args[0] == "-" + text && text != "" && text != "-"
    ensures ParseFrom(optstring, "", args) == ParseFrom(optstring, text, args)
  {
    assert args[0][1..] == text;
  }

  lemma LastLetter(colon: bool, decls: seq<Decl>, c: char, args: seq<string>)
    requires Declarable(decls) && NoArguments(decls, [c]) && args != []
    ensures var optstring := OptString(colon, decls);
            ParseFrom(optstring, [c], args)
            == Prepend(LetterEvents(decls, [c]), [args[0]], [], ParseFrom(optstring, "", args[1..]))
  {
    hide KindOf, OptString;
    KindOfLetter(colon, decls, c);
    assert KindIn(decls, [c][0]) == KindIn(decls, c);
    assert ParseFrom(OptString(colon, decls), [c], args) == ParseChar(OptString(colon, decls), [c], args);
    assert [c][1..] == "" && LetterEvents(decls, "") == [];
    assert LetterEvents(decls, [c])
        == [if KindIn(decls, c) == Unknown then Event('?', None, Some(c)) else Event(c, None, None)];
  }

  lemma {:induction false} LetterEventsAppend(decls: seq<Decl>, a: string, b: string)
    ensures LetterEvents(decls, a + b) == LetterEvents(decls, a) + LetterEvents(decls, b)
  {
    if a == "" {
      assert a + b == b;
    } else {
      assert (a + b)[1..] == a[1..] + b;
      LetterEventsAppend(decls, a[1..], b);
    }
  }

  // What is left of an element and the arguments once its letters are read.
  function Ending(w: Word): string
    requires !w.Other? && (w.Letters? ==> w.letters != "")
  {
    match w
    case Letters(letters) => [letters[|letters| - 1]]
    case Attached(_, c, arg) => [c] + arg
    case Separate(_, c, arg) => [c]
    case Bare(_, c) => [c]
  }

  function Before(w: Word): string
    requires !w.Other?
  {
    if w.Letters? && w.letters != "" then w.letters[..|w.letters| - 1] else w.letters
  }

  function EndingEvents(decls: seq<Decl>, w: Word): seq<Event>
    requires !w.Other? && (w.Letters? ==> w.letters != "")
  {
    match w
    case Letters(letters) => LetterEvents(decls, [letters[|letters| - 1]])
    case Attached(_, c, arg) => [Event(c, Some(arg), None)]
    case Separate(_, c, arg) => [Event(c, Some(arg), None)]
    case Bare(_, c) => [Event(c, None, None)]
  }

  lemma EndingParses(colon: bool, decls: seq<Decl>, w: Word, more: seq<string>)
    requires Declarable(decls) && Good(decls, w) && !w.Other?
    ensures var optstring := OptString(colon, decls);
            ParseFrom(optstring, Ending(w), Show(w) + more)
            == Prepend(EndingEvents(decls, w), Show(w), [], ParseFrom(optstring, "", more))
  {
    hide KindOf, OptString;
    var optstring, args, next := OptString(colon, decls), Show(w) + more, Ending(w);
    assert args[..|Show(w)|] == Show(w) && args[|Show(w)|..] == more;
    if w.Letters? {
      LastLetter(colon, decls, next[0], args);
    } else {
      KindOfLetter(colon, decls, w.c);
      assert ParseFrom(optstring, next, args) == ParseChar(optstring, next, args);
      assert next[0] == w.c && next[1..] == if w.Attached? then w.arg else "";
      assert args[..1] == [args[0]];
    }
  }

  lemma WordSplits(decls: seq<Decl>, w: Word)
    requires Good(decls, w) && !w.Other?
    ensures Show(w)[0] == "-" + (Before(w) + Ending(w)) && Ending(w) != "" && Before(w) + Ending(w) != "-"
    ensures NoArguments(decls, Before(w))
    ensures EventsOf(decls, w) == LetterEvents(decls, Before(w)) + EndingEvents(decls, w)
  {
    if w.Letters? {
      assert w.letters == Before(w) + Ending(w);
      LetterEventsAppend(decls, Before(w), Ending(w));
    } else if w.Attached? {
      assert "-" + w.letters + [w.c] + w.arg == "-" + (w.letters + ([w.c] + w.arg));
    } else {
      assert "-" + w.letters + [w.c] == "-" + (w.letters + [w.c]);
    }
  }

  lemma OptionParses(colon: bool, decls: seq<Decl>, w: Word, more: seq<string>)
    requires Declarable(decls) && Good(decls, w) && !w.Other?
    ensures var optstring := OptString(colon, decls);
            ParseFrom(optstring, "", Show(w) + more)
            == Prepend(EventsOf(decls, w), Show(w), [], ParseFrom(optstring, "", more))
  {
    hide ParseFrom, OptString, Good, Ending, EndingEvents, Before, NoArguments, EventsOf, LetterEvents;
    var optstring, args := OptString(colon, decls), Show(w) + more;
    WordSplits(decls, w);
    ElementParses(optstring, Before(w) + Ending(w), args);
    LettersParse(colon, decls, Before(w), Ending(w), args);
    EndingParses(colon, decls, w, more);
    PrependTwice(LetterEvents(decls, Before(w)), EndingEvents(decls, w), Show(w), ParseFrom(optstring, "", more));
  }

  lemma PrependTwice(a: seq<Event>, b: seq<Event>, opts: seq<string>, p: Parse)
    ensures Prepend(a, [], [], Prepend(b, opts, [], p)) == Prepend(a + b, opts, [], p)
  {
    assert a + (b + p.events) == (a + b) + p.events;
    assert [] + (opts + p.opts) == opts + p.opts;
  }

  lemma OtherParses(optstring: string, arg: string, more: seq<string>)
    requires arg == "" || arg[0] != '-' || arg == "-"
    ensures var p := ParseFrom(optstring, "", more);
            ParseFrom(optstring, "", [arg] + more) == Parse(p.events, p.opts, [arg] + p.rest, p.end)
  {
    assert ([arg] + more)[1..] == more;
    NothingPrepended(ParseFrom(optstring, "", more));
  }

  lemma TailParses(colon: bool, decls: seq<Decl>, tail: Tail)
    requires Declarable(decls) && GoodTail(decls, tail)
    ensures ParseFrom(OptString(colon, decls), "", ShowTail(tail)) == TailMeans(colon, decls, tail)
  {
    hide KindOf;
    match tail
    case End =>
    case DoubleDash(after) =>
      assert (["--"] + after)[1..] == after;
    case NoArgument(letters, c) =>
      MissingParses(colon, decls, letters, c);
  }

  lemma MissingParses(colon: bool, decls: seq<Decl>, letters: string, c: char)
    requires Declarable(decls) && Ends(decls, letters, c) && KindIn(decls, c) == Required
    ensures ParseFrom(OptString(colon, decls), "", ["-" + letters + [c]])
            == TailMeans(colon, decls, NoArgument(letters, c))
  {
    hide KindOf, OptString;
    var optstring, args := OptString(colon, decls), ["-" + letters + [c]];
    assert args[0] == "-" + (letters + [c]);
    ElementParses(optstring, letters + [c], args);
    LettersParse(colon, decls, letters, [c], args);
    KindOfLetter(colon, decls, c);
    MissingLetter(colon, decls);
    assert ParseFrom(optstring, [c], args) == ParseChar(optstring, [c], args);
  }

  // Parsing what was written gives what was meant.
  lemma {:induction false} ArgumentsRoundTrip(colon: bool, decls: seq<Decl>, words: seq<Word>, tail: Tail)
    requires Declarable(decls) && AllGood(decls, words) && GoodTail(decls, tail)
    ensures ParseFrom(OptString(colon, decls), "", ShowAll(words) + ShowTail(tail))
            == Means(decls, words, TailMeans(colon, decls, tail))
  {
    hide ParseFrom, OptString, Good, EventsOf, ShowTail, TailMeans, Show;
    if words == [] {
      assert ShowAll(words) + ShowTail(tail) == ShowTail(tail);
      TailParses(colon, decls, tail);
    } else {
      var more := ShowAll(words[1..]) + ShowTail(tail);
      assert ShowAll(words) + ShowTail(tail) == Show(words[0]) + more;
      ArgumentsRoundTrip(colon, decls, words[1..], tail);
      FirstWord(colon, decls, words[0], more);
    }
  }

  lemma FirstWord(colon: bool, decls: seq<Decl>, w: Word, more: seq<string>)
    requires Declarable(decls) && Good(decls, w)
    ensures var p := ParseFrom(OptString(colon, decls), "", more);
            ParseFrom(OptString(colon, decls), "", Show(w) + more)
            == if w.Other? then Parse(p.events, p.opts, [w.arg] + p.rest, p.end)
            else Parse(EventsOf(decls, w) + p.events, Show(w) + p.opts, p.rest, p.end)
  {
    hide ParseFrom, OptString, EventsOf;
    if w.Other? {
      OtherParses(OptString(colon, decls), w.arg, more);
    } else {
      OptionParses(colon, decls, w, more);
    }
  }

  /* Every list is covered. */

  // The first letter that takes an argument.
  lemma {:induction false} FindArgument(decls: seq<Decl>, text: string) returns (n: nat)
    ensures n <= |text| && NoArguments(decls, text[..n])
    ensures n < |text| ==> KindIn(decls, text[n]) == Required || KindIn(decls, text[n]) == Optional
  {
    if text == "" {
      n := 0;
    } else if KindIn(decls, text[0]) == Required || KindIn(decls, text[0]) == Optional {
      n := 0;
    } else {
      var m := FindArgument(decls, text[1..]);
      n := m + 1;
      assert text[..n] == [text[0]] + text[1..][..m];
    }
  }

  // How one element begins a list: a word, or the tail.
  lemma ReadElement(decls: seq<Decl>, args: seq<string>) returns (w: Option<Word>, tail: Tail)
    requires args != []
    ensures w.None? ==> GoodTail(decls, tail) && ShowTail(tail) == args
    ensures w.Some? ==> Good(decls, w.value) && Show(w.value) <= args
  {
    tail := End;
    var arg := args[0];
    if arg == "" || arg[0] != '-' || arg == "-" {
      w := Some(Other(arg));
    } else if arg == "--" {
      w, tail := None, DoubleDash(args[1..]);
    } else {
      var n := FindArgument(decls, arg[1..]);
      w, tail := ReadLetters(decls, args, arg[1..], n);
    }
  }

  lemma ReadLetters(decls: seq<Decl>, args: seq<string>, text: string, n: nat) returns (w: Option<Word>, tail: Tail)
    requires args != [] && args[0] == "-" + text && text != "" && text != "-"
    requires n <= |text| && NoArguments(decls, text[..n])
    requires n < |text| ==> KindIn(decls, text[n]) == Required || KindIn(decls, text[n]) == Optional
    ensures w.None? ==> GoodTail(decls, tail) && ShowTail(tail) == args
    ensures w.Some? ==> Good(decls, w.value) && Show(w.value) <= args
  {
    hide KindIn;
    w, tail := None, End;
    if n == |text| {
      assert text[..n] == text;
      w := Some(Letters(text));
    } else {
      var letters, c, arg := text[..n], text[n], text[n + 1..];
      assert text == letters + [c] + arg;
      if arg != "" {
        w := Some(Attached(letters, c, arg));
        assert "-" + letters + [c] + arg == args[0];
      } else {
        assert text == letters + [c] && "-" + letters + [c] == args[0];
        if KindIn(decls, c) == Optional {
          w := Some(Bare(letters, c));
        } else if |args| == 1 {
          tail := NoArgument(letters, c);
        } else {
          w := Some(Separate(letters, c, args[1]));
        }
      }
    }
  }

  // The round trip covers every argument list.
  lemma {:induction false} EveryListIsWritten(decls: seq<Decl>, args: seq<string>)
    returns (words: seq<Word>, tail: Tail)
    ensures AllGood(decls, words) && GoodTail(decls, tail) && ShowAll(words) + ShowTail(tail) == args
    decreases |args|
  {
    hide Good, Show, ShowTail, GoodTail;
    if args == [] {
      words, tail := [], End;
      EmptyTail(decls);
    } else {
      var w, t := ReadElement(decls, args);
      if w.None? {
        words, tail := [], t;
      } else {
        var n := Shown(w.value);
        var more;
        more, tail := EveryListIsWritten(decls, args[n..]);
        words := [w.value] + more;
        assert words[1..] == more;
        assert ShowAll(words) == Show(w.value) + ShowAll(more);
        assert args == Show(w.value) + args[n..];
      }
    }
  }

  lemma EmptyTail(decls: seq<Decl>)
    ensures GoodTail(decls, End) && ShowTail(End) == []
  {
  }

  lemma Shown(w: Word) returns (n: nat)
    ensures n == |Show(w)| > 0
  {
    n := |Show(w)|;
  }
}
