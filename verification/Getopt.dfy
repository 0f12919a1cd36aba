/**
  GNU getopt as it works: the caller's argv permuted in place, with a scanning
  position carried from call to call.  Short options, PERMUTE ordering.
 */
module Getopt {
  import opened Options
  import opened GetoptSpec

  // Swaps a[p..p+len] with a[q..q+len].
  method SwapBlocks(a: array<string>, p: nat, q: nat, len: nat)
    requires p + len <= q && q + len <= a.Length
    modifies a
    ensures a[..] == Swapped(old(a[..]), p, q, len)
  {
    var i := 0;
    while i < len
      invariant i <= len
      invariant forall j :: p <= j < p + i ==> a[j] == old(a[j + (q - p)])
      invariant forall j :: q <= j < q + i ==> a[j] == old(a[j - (q - p)])
      invariant forall j :: 0 <= j < a.Length && !(p <= j < p + i) && !(q <= j < q + i) ==> a[j] == old(a[j])
    {
      a[p + i], a[q + i] := a[q + i], a[p + i];
      i := i + 1;
    }
    IsSwapped(old(a[..]), a[..], p, q, len);
  }

  lemma IsSwapped(a: seq<string>, b: seq<string>, p: nat, q: nat, len: nat)
    requires p + len <= q && q + len <= |a| == |b|
    requires forall j :: p <= j < p + len ==> b[j] == a[j + (q - p)]
    requires forall j :: q <= j < q + len ==> b[j] == a[j - (q - p)]
    requires forall j :: 0 <= j < |a| && !(p <= j < p + len) && !(q <= j < q + len) ==> b[j] == a[j]
    ensures b == Swapped(a, p, q, len)
  {
    assert b[..p] == a[..p] && b[p..p + len] == a[q..q + len] && b[p + len..q] == a[p + len..q];
    assert b[q..q + len] == a[p..p + len] && b[q + len..] == a[q + len..];
    assert b == b[..p] + b[p..p + len] + b[p + len..q] + b[q..q + len] + b[q + len..];
  }

  // The arrangement exchange is after, with [bottom, middle) and [middle, top)
  // still to trade places.
  ghost function Exchanged(a: seq<string>, bottom: nat, middle: nat, top: nat): seq<string>
    requires bottom <= middle <= top <= |a|
  {
    a[..bottom] + a[middle..top] + a[bottom..middle] + a[top..]
  }

  // The seq a with [p, p+len) and [q, q+len) swapped.
  ghost function Swapped(a: seq<string>, p: nat, q: nat, len: nat): seq<string>
    requires p + len <= q && q + len <= |a|
  {
    a[..p] + a[q..q + len] + a[p + len..q] + a[p..p + len] + a[q + len..]
  }

  // The shorter bottom block lands in its place at the top.
  lemma BottomShort(a: seq<string>, b: seq<string>, bottom: nat, middle: nat, top: nat)
    requires bottom <= middle <= top <= |a| && top - middle > middle - bottom
    requires b == Swapped(a, bottom, top - (middle - bottom), middle - bottom)
    ensures Exchanged(b, bottom, middle, top - (middle - bottom)) == Exchanged(a, bottom, middle, top)
  {
    var cut := top - (middle - bottom);
    assert b[..bottom] == a[..bottom] && b[bottom..middle] == a[cut..top];
    assert b[middle..cut] == a[middle..cut] && b[cut..] == a[bottom..middle] + a[top..];
  }

  // The shorter top block lands in its place at the bottom.
  lemma TopShort(a: seq<string>, b: seq<string>, bottom: nat, middle: nat, top: nat)
    requires bottom <= middle <= top <= |a| && top - middle <= middle - bottom
    requires b == Swapped(a, bottom, middle, top - middle)
    ensures Exchanged(b, bottom + (top - middle), middle, top) == Exchanged(a, bottom, middle, top)
  {
    var cut := bottom + (top - middle);
    assert b[..cut] == a[..bottom] + a[middle..top] && b[cut..middle] == a[cut..middle];
    assert b[middle..top] == a[bottom..cut] && b[top..] == a[top..];
  }

  // One turn of the loop of exchange: the shorter block lands in its place.
  method ExchangeStep(argv: array<string>, bottom: nat, middle: nat, top: nat, ghost swaps: nat)
    returns (bottom': nat, top': nat, ghost swaps': nat)
    requires bottom < middle < top <= argv.Length
    modifies argv
    ensures bottom <= bottom' <= middle <= top' <= top && bottom' < top'
    ensures swaps' - swaps == (top - bottom) - (top' - bottom') > 0
    ensures Exchanged(argv[..], bottom', middle, top') == Exchanged(old(argv[..]), bottom, middle, top)
  {
    if top - middle > middle - bottom {
      SwapBlocks(argv, bottom, top - (middle - bottom), middle - bottom);
      BottomShort(old(argv[..]), argv[..], bottom, middle, top);
      bottom', top', swaps' := bottom, top - (middle - bottom), swaps + (middle - bottom);
    } else {
      SwapBlocks(argv, bottom, middle, top - middle);
      TopShort(old(argv[..]), argv[..], bottom, middle, top);
      bottom', top', swaps' := bottom + (top - middle), top, swaps + (top - middle);
    }
  }

  lemma NothingLeft(a: seq<string>, bottom: nat, middle: nat, top: nat)
    requires bottom <= middle <= top <= |a| && (bottom == middle || middle == top)
    ensures Exchanged(a, bottom, middle, top) == a
  {
  }

  // Equal but for how the scan ended, which the calls do not report.
  ghost predicate Same(p: Parse, q: Parse) {
    p.events == q.events && p.opts == q.opts && p.rest == q.rest
  }

  lemma NothingYet(returned: seq<Event>, original: seq<string>, a: seq<string>, p: Parse)
    requires returned == [] && a == original != []
    ensures Same(p, Prepend(returned, a[1..1] + a[1..1], a[1..1], p))
  {
  }

  lemma ExchangedParts(a: seq<string>, first: nat, last: nat, top: nat)
    requires 1 <= first <= last <= top <= |a|
    ensures var b, cut := Exchanged(a, first, last, top), first + (top - last);
            && |b| == |a| && b[0] == a[0] && b[top..] == a[top..]
            && b[1..cut] == a[1..first] + a[last..top] && b[cut..top] == a[first..last]
  {
    var b, cut := Exchanged(a, first, last, top), first + (top - last);
    assert b[1..cut] == a[1..first] + a[last..top];
    assert b[cut..top] == a[first..last];
    assert b[top..] == a[top..];
  }

  // A skipped non-option joins the others.
  lemma SkipOne(optstring: string, returned: seq<Event>, a: seq<string>, first: nat, top: nat)
    requires 1 <= first <= top < |a| && NonOption(a[top])
    ensures Prepend(returned, a[1..first], a[first..top], ParseFrom(optstring, "", a[top..]))
         == Prepend(returned, a[1..first], a[first..top + 1], ParseFrom(optstring, "", a[top + 1..]))
  {
    var p := ParseFrom(optstring, "", a[top + 1..]);
    assert a[top..][1..] == a[top + 1..];
    assert a[first..top] + ([a[top]] + p.rest) == a[first..top + 1] + p.rest;
    assert [] + p.events == p.events && [] + p.opts == p.opts;
  }

  lemma DashesMoved(a: seq<string>, first: nat, top: nat)
    requires 1 <= first <= top < |a|
    ensures var b := Exchanged(a, first, top, top + 1);
            && |b| == |a| && b[0] == a[0]
            && b[1..first + 1] == a[1..first] + [a[top]]
            && b[first + 1..] == a[first..top] + a[top + 1..]
  {
    assert Exchanged(a, first, top, top + 1) == [a[0]] + (a[1..first] + [a[top]]) + (a[first..top] + a[top + 1..]);
  }

  lemma DashesEnd(optstring: string, returned: seq<Event>, a: seq<string>, first: nat, top: nat)
    requires 1 <= first <= top < |a| && a[top] == "--"
    ensures var p := Prepend(returned, a[1..first], a[first..top], ParseFrom(optstring, "", a[top..]));
            && p.events == returned
            && p.opts == a[1..first] + ["--"]
            && p.rest == a[first..top] + a[top + 1..]
  {
    assert a[top..][1..] == a[top + 1..];
  }

  // What one character does to the position: how many elements it consumes and
  // what is left of the current one.
  ghost function Scanned(optstring: string, next: string, left: seq<string>): (nat, string, Event)
    requires next != "" && left != []
  {
    var c, tail := next[0], next[1..];
    match KindOf(optstring, c)
    case Unknown => (if tail == "" then 1 else 0, tail, Event('?', None, Some(c)))
    case Plain => (if tail == "" then 1 else 0, tail, Event(c, None, None))
    case Optional => (1, "", Event(c, if tail == "" then None else Some(tail), None))
    case Required =>
      if tail != "" then (1, "", Event(c, Some(tail), None))
      else if |left| == 1 then (1, "", Event(MissingCode(optstring), None, Some(c)))
      else (2, "", Event(c, Some(left[1]), None))
  }

  lemma DecodeParses(optstring: string, returned: seq<Event>, opts: seq<string>, rest: seq<string>,
                     next: string, left: seq<string>)
    requires next != "" && left != []
    ensures var (n, tail, e) := Scanned(optstring, next, left);
            && n <= |left| && (tail != "" ==> n == 0)
            && Same(Prepend(returned, opts, rest, ParseFrom(optstring, next, left)),
                    Prepend(returned + [e], opts + left[..n], rest, ParseFrom(optstring, tail, left[n..])))
  {
    var (n, tail, e) := Scanned(optstring, next, left);
    var p := ParseFrom(optstring, tail, left[n..]);
    assert left[..1] == [left[0]] && left[..0] == [] && left[0..] == left;
    if KindOf(optstring, next[0]) == Required && next[1..] == "" && |left| == 1 {
      assert left[..1] == left && left[1..] == [];
    }
    var kind := KindOf(optstring, next[0]);
    if kind == Unknown || kind == Plain {
      assert ParseFrom(optstring, next, left) == AfterChar(optstring, e, next[1..], left);
    }
    assert Same(ParseFrom(optstring, next, left), Prepend([e], left[..n], [], p));
    assert (returned + [e]) + p.events == returned + ([e] + p.events);
    assert (opts + left[..n]) + p.opts == opts + (left[..n] + p.opts);
    assert rest + ([] + p.rest) == rest + p.rest;
  }

  lemma StillPlaced(a: seq<string>, before: nat, now: nat, last: nat, left: seq<string>)
    requires last <= before <= now <= |a| && left == a[before..]
    ensures a[last..now] == a[last..before] + left[..now - before]
    ensures a[now..] == left[now - before..]
  {
  }

  class Scanner {
    const argv: array<string>
    const optstring: string
    var optind: nat
    var firstNonopt: nat
    var lastNonopt: nat
    var nextchar: string          // "" also stands for NULL
    var initialized: bool
    var optarg: Option<string>
    var optopt: char
    ghost const original: seq<string>     // argv as the first call found it
    ghost var returned: seq<Event>        // what the calls have returned

    constructor (argv: array<string>, optstring: string)
      requires ShortPermute(optstring)
      ensures this.argv == argv && this.optstring == optstring && original == argv[..]
      ensures Scanning() && returned == []
    {
      this.argv := argv;
      this.optstring := optstring;
      optind, firstNonopt, lastNonopt := 1, 0, 0;
      nextchar, initialized := "", false;
      optarg, optopt := None, '?';
      original := argv[..];
      returned := [];
    }

    // The parse of the original arguments.
    ghost function Whole(): Parse
      reads this
      requires |original| >= 1
    {
      ParseFrom(optstring, "", original[1..])
    }

    ghost predicate Placed()
      reads this, argv
    {
      && 1 <= firstNonopt <= lastNonopt <= optind <= argv.Length == |original|
      && (nextchar != "" ==> optind < argv.Length)
      && argv[0] == original[0]
      && argv[optind..] == original[optind..]
    }

    // Between calls: the skipped non-options lie in [firstNonopt, lastNonopt),
    // options on both sides of them, and what is not scanned yet is untouched.
    ghost predicate Scanning()
      reads this, argv
    {
      if !initialized then optind == 1 && nextchar == "" && returned == [] && argv[..] == original
      else
        && Placed()
        && Same(Whole(), Prepend(returned, argv[1..firstNonopt] + argv[lastNonopt..optind],
                                 argv[firstNonopt..lastNonopt], ParseFrom(optstring, nextchar, argv[optind..])))
    }

    // After -1: options before optind, the rest from optind on.
    ghost predicate Finished()
      reads this, argv
    {
      if original == [] then argv[..] == [] && returned == []
      else
        && argv[..] == [original[0]] + Whole().opts + Whole().rest
        && optind == 1 + |Whole().opts|
        && returned == Whole().events
    }

    // Block [firstNonopt, lastNonopt) and block [lastNonopt, optind) trade places.
    method Exchange() returns (ghost swaps: nat)
      requires firstNonopt <= lastNonopt <= optind <= argv.Length
      modifies argv, `firstNonopt, `lastNonopt
      ensures argv[..] == Exchanged(old(argv[..]), old(firstNonopt), old(lastNonopt), optind)
      ensures firstNonopt == old(firstNonopt + (optind - lastNonopt)) && lastNonopt == optind
      ensures swaps < optind - old(firstNonopt) || optind == old(firstNonopt)
    {
      var bottom, middle, top := firstNonopt, lastNonopt, optind;
      ghost var target := Exchanged(argv[..], bottom, middle, top);
      swaps := 0;
      while top > middle && middle > bottom
        invariant optind == old(optind) && firstNonopt == old(firstNonopt) && lastNonopt == old(lastNonopt)
        invariant firstNonopt <= bottom <= middle <= top <= optind
        invariant target == Exchanged(argv[..], bottom, middle, top)
        invariant swaps + (top - bottom) == optind - firstNonopt
        invariant optind > firstNonopt ==> top > bottom
        decreases top - bottom
      {
        bottom, top, swaps := ExchangeStep(argv, bottom, middle, top, swaps);
      }
      NothingLeft(argv[..], bottom, middle, top);
      firstNonopt := firstNonopt + (optind - lastNonopt);
      lastNonopt := optind;
    }

    // The call that returns a value, or None for -1.
    method Next() returns (r: Option<Event>)
      requires Scanning() && ShortPermute(optstring)
      modifies this, argv
      ensures r.None? ==> Finished() && returned == old(returned)
      ensures r.Some? ==> Scanning() && returned == old(returned) + [r.value]
      ensures r.Some? ==> optarg == r.value.arg && (r.value.bad.Some? ==> optopt == r.value.bad.value)
    {
      hide ParseFrom;
      if argv.Length < 1 { return None; }
      optarg := None;
      if !initialized {
        firstNonopt, lastNonopt := optind, optind;
        nextchar := "";
        initialized := true;
        NothingYet(returned, original, argv[..], Whole());
      }
      if nextchar == "" {
        var more := Advance();
        if !more { return None; }
      }
      var e := Decode();
      r := Some(e);
    }

    // Options first, then the non-options skipped so far, then what is not scanned.
    ghost predicate Gathered()
      reads this, argv
    {
      && initialized && nextchar == ""
      && 1 <= firstNonopt <= optind <= argv.Length == |original|
      && argv[0] == original[0]
      && argv[optind..] == original[optind..]
      && Same(Whole(), Prepend(returned, argv[1..firstNonopt], argv[firstNonopt..optind],
                               ParseFrom(optstring, "", argv[optind..])))
    }

    // Options scanned since the last skip move in front of the skipped non-options.
    method Gather()
      requires initialized && original != [] && nextchar == "" && Scanning()
      modifies argv, `firstNonopt, `lastNonopt
      ensures Gathered()
    {
      if firstNonopt != lastNonopt && lastNonopt != optind {
        ghost var swaps := Exchange();
        ExchangedParts(old(argv[..]), old(firstNonopt), old(lastNonopt), optind);
      } else if lastNonopt != optind {
        assert argv[1..optind] == argv[1..lastNonopt] + argv[lastNonopt..optind];
        firstNonopt := optind;
      } else {
        assert argv[lastNonopt..optind] == [];
      }
    }

    // All scanned: options before firstNonopt, everything else from there on.
    ghost predicate Divided()
      reads this, argv
    {
      && 1 <= firstNonopt <= optind == argv.Length == |original|
      && argv[0] == original[0]
      && Whole().events == returned
      && Whole().opts == argv[1..firstNonopt]
      && Whole().rest == argv[firstNonopt..]
    }

    // "--" is an option that ends the options.
    method PassDashes()
      requires Gathered() && lastNonopt == optind < argv.Length && argv[optind] == "--"
      modifies argv, `optind, `firstNonopt, `lastNonopt
      ensures Divided() && lastNonopt == argv.Length
    {
      hide ParseFrom;
      DashesEnd(optstring, returned, argv[..], firstNonopt, optind);
      optind := optind + 1;
      if firstNonopt != lastNonopt && lastNonopt != optind {
        ghost var swaps := Exchange();
        DashesMoved(old(argv[..]), old(firstNonopt), old(optind));
      } else if firstNonopt == lastNonopt {
        firstNonopt := optind;
      }
      lastNonopt := argv.Length;
      optind := argv.Length;
    }

    // Find the next element that holds options; false if there is none.
    method Advance() returns (more: bool)
      requires initialized && original != [] && nextchar == "" && Scanning()
      modifies argv, `optind, `firstNonopt, `lastNonopt, `nextchar
      ensures more ==> Scanning() && nextchar != ""
      ensures !more ==> Finished()
    {
      Gather();
      SkipNonOptions();
      if optind != argv.Length && argv[optind] == "--" {
        PassDashes();
      }
      if optind == argv.Length {
        Finish();
        return false;
      }
      nextchar := argv[optind][1..];
      assert argv[lastNonopt..optind] == [];
      return true;
    }

    // The non-options that come next join those skipped before.
    method SkipNonOptions()
      requires Gathered()
      modifies `optind, `lastNonopt
      ensures Gathered() && lastNonopt == optind
      ensures optind < argv.Length ==> !NonOption(argv[optind])
      ensures optind == argv.Length ==> Divided()
    {
      while optind < argv.Length && NonOption(argv[optind])
        invariant Gathered()
        decreases argv.Length - optind
      {
        SkipOne(optstring, returned, argv[..], firstNonopt, optind);
        optind := optind + 1;
      }
      lastNonopt := optind;
    }

    // optind becomes the boundary.
    method Finish()
      requires Divided() && lastNonopt == argv.Length
      modifies `optind
      ensures Finished()
    {
      if firstNonopt != lastNonopt { optind := firstNonopt; }
      assert argv[..] == [argv[0]] + argv[1..firstNonopt] + argv[firstNonopt..];
    }

    // One character of the current element is read as an option.
    method Decode() returns (e: Event)
      requires initialized && original != [] && nextchar != "" && Scanning()
      requires optarg == None
      modifies `optind, `nextchar, `optarg, `optopt, `returned
      ensures Scanning() && returned == old(returned) + [e]
      ensures optarg == e.arg && (e.bad.Some? ==> optopt == e.bad.value)
    {
      ghost var next, left := nextchar, argv[optind..];
      ghost var opts, rest := argv[1..firstNonopt] + argv[lastNonopt..optind], argv[firstNonopt..lastNonopt];
      DecodeParses(optstring, returned, opts, rest, next, left);
      e := ScanChar();
      StillPlaced(argv[..], old(optind), optind, lastNonopt, left);
      assert argv[optind..] == original[optind..];
      returned := returned + [e];
    }

    method ScanChar() returns (e: Event)
      requires nextchar != "" && optind < argv.Length && optarg == None
      modifies `optind, `nextchar, `optarg, `optopt
      ensures (optind - old(optind), nextchar, e) == Scanned(optstring, old(nextchar), argv[old(optind)..])
      ensures optarg == e.arg && (e.bad.Some? ==> optopt == e.bad.value)
    {
      var c := nextchar[0];
      var code, bad := c, None;
      nextchar := nextchar[1..];
      var temp := IndexOf(optstring, c);
      if nextchar == "" { optind := optind + 1; }
      if temp.None? || c == ':' {
        optopt := c;
        code, bad := '?', Some(c);
      } else {
        var i := temp.value;
        if i + 1 < |optstring| && optstring[i + 1] == ':' {
          if i + 2 < |optstring| && optstring[i + 2] == ':' {
            if nextchar != "" {
              optarg := Some(nextchar);
              optind := optind + 1;
            } else {
              optarg := None;
            }
          } else if nextchar != "" {
            optarg := Some(nextchar);
            optind := optind + 1;
          } else if optind == argv.Length {
            optopt := c;
            code, bad := MissingCode(optstring), Some(c);
          } else {
            optarg := Some(argv[optind]);
            optind := optind + 1;
          }
          nextchar := "";
        }
      }
      e := Event(code, optarg, bad);
    }
  }

  // The loop of a program over its options: while ((opt = getopt (...)) != -1).
  // It sees exactly the options of the original list, in order and with their
  // arguments; when it ends argv is the stable partition and optind the boundary.
  method ScanAll(argv: array<string>, optstring: string) returns (events: seq<Event>, optind: nat)
    requires argv.Length >= 1 && ShortPermute(optstring)
    modifies argv
    ensures var p := ParseFrom(optstring, "", old(argv[..])[1..]);
            && events == p.events
            && argv[..] == [old(argv[0])] + p.opts + p.rest
            && optind == 1 + |p.opts|
  {
    var s := new Scanner(argv, optstring);
    events := [];
    while true
      invariant s.argv == argv && s.optstring == optstring && s.original == old(argv[..]) && fresh(s)
      invariant s.Scanning() && events == s.returned
      decreases |s.Whole().events| - |s.returned|
    {
      var e := s.Next();
      if e.None? { break; }
      events := events + [e.value];
    }
    optind := s.optind;
  }
}
