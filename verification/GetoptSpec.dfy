/**
  What a whole run of getopt means, stated on the argument list alone: no array,
  no permutation, no state between calls.  Short options, PERMUTE ordering.
 */
module GetoptSpec {
  import opened Options

  // One value returned by getopt: the code, optarg, and optopt when the code
  // reports an error.
  datatype Event = Event(code: char, arg: Option<string>, bad: Option<char>)

  // What an option string says of a character.
  datatype Kind = Unknown | Plain | Required | Optional

  // events: what the calls return, in order.  opts, rest: the option side
  // (option elements, their separate arguments, "--") and the other side, each in
  // the order given.
  datatype Parse = Parse(events: seq<Event>, opts: seq<string>, rest: seq<string>, end: End)

  // How the scan ended: at the end of the list, there but where an argument was
  // required, or at "--".
  datatype End = Exhausted | Missing | Dashes

  // NONOPTION_P: "-" alone is not an option.
  predicate NonOption(arg: string) {
    arg == "" || arg[0] != '-' || arg == "-"
  }

  // my_index
  function IndexOf(s: string, c: char): (i: Option<nat>)
    ensures i.Some? ==> i.value < |s| && s[i.value] == c && c !in s[..i.value]
    ensures i.None? ==> c !in s
  {
    if s == "" then None
    else if s[0] == c then Some(0)
    else
      match IndexOf(s[1..], c)
      case None => None
      case Some(i) => assert s[..i + 1] == [s[0]] + s[1..][..i]; Some(i + 1)
  }

  // The colons after the first occurrence of c decide.
  function KindOf(optstring: string, c: char): Kind {
    match IndexOf(optstring, c)
    case None => Unknown
    case Some(i) =>
      if c == ':' then Unknown
      else if i + 1 >= |optstring| || optstring[i + 1] != ':' then Plain
      else if i + 2 < |optstring| && optstring[i + 2] == ':' then Optional
      else Required
  }

  // The option string neither asks for another ordering nor makes W introduce long
  // options.
  predicate ShortPermute(optstring: string) {
    && (optstring == "" || (optstring[0] != '+' && optstring[0] != '-'))
    && match IndexOf(optstring, 'W')
       case None => true
       case Some(i) => i + 1 >= |optstring| || optstring[i + 1] != ';'
  }

  // The code for a missing argument.
  function MissingCode(optstring: string): char {
    if optstring != "" && optstring[0] == ':' then ':' else '?'
  }

  function Prepend(events: seq<Event>, opts: seq<string>, rest: seq<string>, p: Parse): Parse {
    Parse(events + p.events, opts + p.opts, rest + p.rest, p.end)
  }

  // The parse of args, next being what is left of args[0] when it is being scanned.
  function ParseFrom(optstring: string, next: string, args: seq<string>): (p: Parse)
    requires next != "" ==> args != []
    decreases |args|, if next == "" && args != [] then |args[0]| else |next|, 1
  {
    if next == "" then
      if args == [] then Parse([], [], [], Exhausted)
      else if NonOption(args[0]) then Prepend([], [], [args[0]], ParseFrom(optstring, "", args[1..]))
      else if args[0] == "--" then Parse([], ["--"], args[1..], Dashes)
      else ParseChar(optstring, args[0][1..], args)
    else ParseChar(optstring, next, args)
  }

  function ParseChar(optstring: string, next: string, args: seq<string>): Parse
    requires next != "" && args != []
    decreases |args|, |next|, 0
  {
    var c, tail := next[0], next[1..];
    match KindOf(optstring, c)
    case Unknown => AfterChar(optstring, Event('?', None, Some(c)), tail, args)
    case Plain => AfterChar(optstring, Event(c, None, None), tail, args)
    case Optional =>
      Prepend([Event(c, if tail == "" then None else Some(tail), None)], [args[0]], [],
              ParseFrom(optstring, "", args[1..]))
    case Required =>
      if tail != "" then
        Prepend([Event(c, Some(tail), None)], [args[0]], [], ParseFrom(optstring, "", args[1..]))
      else if |args| == 1 then
        Parse([Event(MissingCode(optstring), None, Some(c))], args, [], Missing)
      else
        Prepend([Event(c, Some(args[1]), None)], args[..2], [], ParseFrom(optstring, "", args[2..]))
  }

  // The rest of the element is scanned on, or the next element begins.
  function AfterChar(optstring: string, event: Event, tail: string, args: seq<string>): Parse
    requires args != []
    decreases |args|, |tail|, 2
  {
    if tail == "" then Prepend([event], [args[0]], [], ParseFrom(optstring, "", args[1..]))
    else Prepend([event], [], [], ParseFrom(optstring, tail, args))
  }

  /* A stable partition. */

  // The elements of args at the places where keep has the given value.
  function Select(args: seq<string>, keep: seq<bool>, value: bool): seq<string>
    requires |args| == |keep|
  {
    if args == [] then []
    else (if keep[0] == value then [args[0]] else []) + Select(args[1..], keep[1..], value)
  }

  lemma {:induction false} SelectConcat(a: seq<string>, ka: seq<bool>, b: seq<string>, kb: seq<bool>, value: bool)
    requires |a| == |ka| && |b| == |kb|
    ensures Select(a + b, ka + kb, value) == Select(a, ka, value) + Select(b, kb, value)
  {
    hide Select;
    if a == [] {
      assert a + b == b && ka + kb == kb;
      SelectNone(a, ka, value);
    } else {
      SelectConcat(a[1..], ka[1..], b, kb, value);
      SelectCons(a, ka, a[1..], ka[1..], value);
      SelectCons(a + b, ka + kb, a[1..] + b, ka[1..] + kb, value);
    }
  }

  lemma SelectNone(a: seq<string>, ka: seq<bool>, value: bool)
    requires |a| == |ka| == 0
    ensures Select(a, ka, value) == []
  {
  }

  lemma SelectCons(a: seq<string>, ka: seq<bool>, tail: seq<string>, keep: seq<bool>, value: bool)
    requires |a| == |ka| > 0 && a[1..] == tail && ka[1..] == keep
    ensures Select(a, ka, value) == (if ka[0] == value then [a[0]] else []) + Select(tail, keep, value)
  {
  }

  lemma SelectAll(a: seq<string>, value: bool)
    ensures Select(a, seq(|a|, i => value), value) == a
    ensures Select(a, seq(|a|, i => value), !value) == []
  {
    if a != [] {
      SelectAll(a[1..], value);
      assert seq(|a|, i => value)[1..] == seq(|a[1..]|, i => value);
    }
  }

  lemma SelectOne(n: nat, args: seq<string>, keep: seq<bool>, value: bool)
    requires n <= |args| && |keep| == |args| - n
    ensures var whole := seq(n, i => value) + keep;
            && |whole| == |args|
            && Select(args, whole, value) == args[..n] + Select(args[n..], keep, value)
            && Select(args, whole, !value) == Select(args[n..], keep, !value)
  {
    var first := seq(n, i => value);
    assert args == args[..n] + args[n..];
    SelectConcat(args[..n], first, args[n..], keep, value);
    SelectConcat(args[..n], first, args[n..], keep, !value);
    SelectAll(args[..n], value);
  }

  ghost predicate Splits(args: seq<string>, keep: seq<bool>, p: Parse) {
    |keep| == |args| && Select(args, keep, true) == p.opts && Select(args, keep, false) == p.rest
  }

  // opts and rest partition the arguments, each keeping its order.
  lemma {:induction false} StablePartition(optstring: string, next: string, args: seq<string>)
    returns (keep: seq<bool>)
    requires next != "" ==> args != []
    ensures Splits(args, keep, ParseFrom(optstring, next, args))
    decreases |args|, if next == "" && args != [] then |args[0]| else |next|, 1
  {
    if next == "" && args == [] {
      keep := [];
    } else if next == "" && NonOption(args[0]) {
      var more := StablePartition(optstring, "", args[1..]);
      SelectOne(1, args, more, false);
      keep := seq(1, i => false) + more;
    } else if next == "" && args[0] == "--" {
      var more := seq(|args[1..]|, i => false);
      SelectAll(args[1..], false);
      SelectOne(1, args, more, true);
      keep := seq(1, i => true) + more;
    } else {
      keep := CharPartition(optstring, if next == "" then args[0][1..] else next, args);
    }
  }

  lemma {:induction false} CharPartition(optstring: string, next: string, args: seq<string>) returns (keep: seq<bool>)
    requires next != "" && args != []
    ensures Splits(args, keep, ParseChar(optstring, next, args))
    decreases |args|, |next|, 0
  {
    var tail, kind := next[1..], KindOf(optstring, next[0]);
    if (kind == Unknown || kind == Plain) && tail != "" {
      keep := StablePartition(optstring, tail, args);
    } else if kind == Required && tail == "" && |args| == 1 {
      SelectAll(args, true);
      keep := seq(|args|, i => true);
    } else {
      var n := if kind == Required && tail == "" then 2 else 1;
      var more := StablePartition(optstring, "", args[n..]);
      SelectOne(n, args, more, true);
      keep := seq(n, i => true) + more;
    }
  }

  // Unless "--" ended the scan, the other side has no option syntax in it.
  lemma {:induction false} RestIsNonOption(optstring: string, next: string, args: seq<string>)
    requires next != "" ==> args != []
    ensures var p := ParseFrom(optstring, next, args);
            p.end != Dashes ==> forall a :: a in p.rest ==> NonOption(a)
    decreases |args|, if next == "" && args != [] then |args[0]| else |next|, 1
  {
    if next == "" && args == [] {
    } else if next == "" && NonOption(args[0]) {
      RestIsNonOption(optstring, "", args[1..]);
    } else if next == "" && args[0] == "--" {
    } else {
      RestIsNonOptionChar(optstring, if next == "" then args[0][1..] else next, args);
    }
  }

  lemma {:induction false} RestIsNonOptionChar(optstring: string, next: string, args: seq<string>)
    requires next != "" && args != []
    ensures var p := ParseChar(optstring, next, args);
            p.end != Dashes ==> forall a :: a in p.rest ==> NonOption(a)
    decreases |args|, |next|, 0
  {
    var tail, kind := next[1..], KindOf(optstring, next[0]);
    if (kind == Unknown || kind == Plain) && tail != "" {
      RestIsNonOption(optstring, tail, args);
    } else if kind == Required && tail == "" && |args| == 1 {
    } else {
      RestIsNonOption(optstring, "", args[if kind == Required && tail == "" then 2 else 1..]);
    }
  }

  /* Parsing the permuted list again. */

  // What the scan of p.opts + tail gives: tail is left over, unless its first
  // element fills in for a missing argument.
  ghost predicate Reparsed(p: Parse, tail: seq<string>, again: Parse) {
    if p.end == Missing && tail != [] then again.opts == p.opts + [tail[0]]
    else again == Parse(p.events, p.opts, tail, p.end)
  }

  lemma NothingPrepended(p: Parse)
    ensures [] + p.events == p.events && [] + p.opts == p.opts
  {
  }

  lemma AllNonOption(optstring: string, tail: seq<string>)
    requires forall a :: a in tail ==> NonOption(a)
    ensures ParseFrom(optstring, "", tail) == Parse([], [], tail, Exhausted)
  {
    if tail != [] { AllNonOption(optstring, tail[1..]); }
  }

  lemma {:induction false} Reparse(optstring: string, next: string, args: seq<string>, tail: seq<string>)
    requires next != "" ==> args != []
    requires var p := ParseFrom(optstring, next, args);
             p.end != Dashes ==> forall a :: a in tail ==> NonOption(a)
    ensures var p := ParseFrom(optstring, next, args);
            && (next != "" ==> p.opts != [] && p.opts[0] == args[0])
            && Reparsed(p, tail, ParseFrom(optstring, next, p.opts + tail))
    decreases |args|, if next == "" && args != [] then |args[0]| else |next|, 1
  {
    var p := ParseFrom(optstring, next, args);
    if next == "" && args == [] {
      AllNonOption(optstring, tail);
      assert [] + tail == tail;
    } else if next == "" && NonOption(args[0]) {
      Reparse(optstring, "", args[1..], tail);
      NothingPrepended(ParseFrom(optstring, "", args[1..]));
    } else if next == "" && args[0] == "--" {
      assert (["--"] + tail)[1..] == tail;
    } else if next == "" {
      ReparseChar(optstring, args[0][1..], args, tail);
      assert (p.opts + tail)[0] == args[0];
    } else {
      ReparseChar(optstring, next, args, tail);
    }
  }

  // How many elements a scan that ends its element consumes.
  function Consumed(kind: Kind, left: string): nat {
    if kind == Required && left == "" then 2 else 1
  }

  lemma {:induction false} ReparseChar(optstring: string, next: string, args: seq<string>, tail: seq<string>)
    requires next != "" && args != []
    requires var p := ParseChar(optstring, next, args);
             p.end != Dashes ==> forall a :: a in tail ==> NonOption(a)
    ensures var p := ParseChar(optstring, next, args);
            p.opts != [] && p.opts[0] == args[0] && Reparsed(p, tail, ParseChar(optstring, next, p.opts + tail))
    decreases |args|, |next|, 0
  {
    var left, kind := next[1..], KindOf(optstring, next[0]);
    if (kind == Unknown || kind == Plain) && left != "" {
      Reparse(optstring, left, args, tail);
      var p, q := ParseChar(optstring, next, args), ParseFrom(optstring, left, args);
      assert p.opts == q.opts && p.rest == q.rest;
    } else if kind == Required && left == "" && |args| == 1 {
      MissingAgain(optstring, next, args, tail);
    } else {
      Reparse(optstring, "", args[Consumed(kind, left)..], tail);
      ConsumeAgain(optstring, next, args, tail);
    }
  }

  lemma MissingAgain(optstring: string, next: string, args: seq<string>, tail: seq<string>)
    requires |next| == 1 && |args| == 1 && KindOf(optstring, next[0]) == Required
    requires forall a :: a in tail ==> NonOption(a)
    ensures var p := ParseChar(optstring, next, args);
            p.opts == args && Reparsed(p, tail, ParseChar(optstring, next, args + tail))
  {
    if tail == [] {
      assert args + tail == args;
    } else {
      AllNonOption(optstring, tail[1..]);
      assert (args + tail)[2..] == tail[1..];
      assert (args + tail)[..2] == args + [tail[0]];
    }
  }

  lemma ConsumeAgain(optstring: string, next: string, args: seq<string>, tail: seq<string>)
    requires next != "" && args != []
    requires var kind, left := KindOf(optstring, next[0]), next[1..];
             && ((kind == Unknown || kind == Plain) ==> left == "")
             && Consumed(kind, left) <= |args|
             && var q := ParseFrom(optstring, "", args[Consumed(kind, left)..]);
                Reparsed(q, tail, ParseFrom(optstring, "", q.opts + tail))
    ensures var p := ParseChar(optstring, next, args);
            p.opts != [] && p.opts[0] == args[0] && Reparsed(p, tail, ParseChar(optstring, next, p.opts + tail))
  {
    var n := Consumed(KindOf(optstring, next[0]), next[1..]);
    var p, q := ParseChar(optstring, next, args), ParseFrom(optstring, "", args[n..]);
    assert args[..1] == [args[0]];
    var kind, c, left := KindOf(optstring, next[0]), next[0], next[1..];
    if kind == Unknown {
      assert p == AfterChar(optstring, Event('?', None, Some(c)), left, args);
    } else if kind == Plain {
      assert p == AfterChar(optstring, Event(c, None, None), left, args);
    }
    assert p.opts == args[..n] + q.opts;
    var again := args[..n] + (q.opts + tail);
    assert p.opts + tail == again && again[n..] == q.opts + tail && again[..n] == args[..n];
  }

  // Parsing the permuted list gives the same options, arguments and partition
  // again, except exactly when the scan ended at an option with its argument
  // missing and there are non-options for it to swallow.
  lemma ReparseExactly(optstring: string, args: seq<string>)
    ensures var p := ParseFrom(optstring, "", args);
            ParseFrom(optstring, "", p.opts + p.rest) == p <==> !(p.end == Missing && p.rest != [])
  {
    var p := ParseFrom(optstring, "", args);
    RestIsNonOption(optstring, "", args);
    Reparse(optstring, "", args, p.rest);
    if p.end == Missing && p.rest != [] {
      assert |ParseFrom(optstring, "", p.opts + p.rest).opts| == |p.opts| + 1;
    }
  }

  // "x -a" with an option that takes an argument: the first scan misses the
  // argument, and the scan of "-a x" finds it.
  lemma ReparseFails()
    ensures var p := ParseFrom("a:", "", ["x", "-a"]);
            && p == Parse([Event('?', None, Some('a'))], ["-a"], ["x"], Missing)
            && ParseFrom("a:", "", p.opts + p.rest) ==
               Parse([Event('a', Some("x"), None)], ["-a", "x"], [], Exhausted)
  {
    assert KindOf("a:", 'a') == Required;
    assert ["x", "-a"][1..] == ["-a"] && ["-a"] + ["x"] == ["-a", "x"] && ["-a", "x"][2..] == [];
    assert ParseFrom("a:", "", ["-a"]) == ParseChar("a:", "a", ["-a"]);
    assert ParseFrom("a:", "", ["-a", "x"]) == ParseChar("a:", "a", ["-a", "x"]);
    assert ParseFrom("a:", "", []) == Parse([], [], [], Exhausted);
  }
}
