/** pj_getopt and pj_getopt_long (getopt.c) as they run, on the variables that getopt.c keeps
    between calls, permuting argv in place. */
module GetoptObject {
  import opened DnsTypes
  import opened GetoptScan

  /** s with the len elements at x and at y in each other's place. */
  function Swapped(s: seq<string>, x: nat, y: nat, len: nat): seq<string>
    requires x + len <= y && y + len <= |s|
  {
    s[..x] + s[y..y + len] + s[x + len..y] + s[x..x + len] + s[y + len..]
  }

  lemma SwappedAt(s: seq<string>, x: nat, y: nat, len: nat, k: nat)
    requires x + len <= y && y + len <= |s| && k < |s|
    ensures |Swapped(s, x, y, len)| == |s|
    ensures Swapped(s, x, y, len)[k] == s[if x <= k < x + len then k + (y - x) else if y <= k < y + len then k - (y - x) else k]
  {
  }

  lemma OneMoreSwapped(s: seq<string>, x: nat, y: nat, i: nat)
    requires x + i + 1 <= y && y + i + 1 <= |s|
    ensures |Swapped(s, x, y, i)| == |s| && Swapped(s, x, y, i + 1) == Swapped(s, x, y, i)[x + i := s[y + i]][y + i := s[x + i]]
    ensures Swapped(s, x, y, i)[x + i] == s[x + i] && Swapped(s, x, y, i)[y + i] == s[y + i]
  {
    hide Swapped;
    SwappedAt(s, x, y, i, x + i);
    SwappedAt(s, x, y, i, y + i);
    SwappedAt(s, x, y, i + 1, x + i);
    var more, one := Swapped(s, x, y, i + 1), Swapped(s, x, y, i)[x + i := s[y + i]][y + i := s[x + i]];
    forall k | 0 <= k < |s| ensures more[k] == one[k] {
      SwappedAt(s, x, y, i, k);
      SwappedAt(s, x, y, i + 1, k);
    }
  }

  /** The inner loops of exchange. */
  method SwapBlocks(argv: array<string>, x: nat, y: nat, len: nat)
    requires x + len <= y && y + len <= argv.Length
    modifies argv
    ensures argv[..] == Swapped(old(argv[..]), x, y, len)
  {
    ghost var was := argv[..];
    assert Swapped(was, x, y, 0) == was;
    hide Swapped;
    var i := 0;
    while i < len
      invariant 0 <= i <= len && argv[..] == Swapped(was, x, y, i)
    {
      OneMoreSwapped(was, x, y, i);
      assert argv[..][x + i] == was[x + i] && argv[..][y + i] == was[y + i];
      argv[x + i], argv[y + i] := argv[y + i], argv[x + i];
      i := i + 1;
    }
  }

  lemma FivePieces(s: seq<string>, i: nat, j: nat, k: nat, l: nat)
    requires i <= j <= k <= l <= |s|
    ensures s == s[..i] + s[i..j] + s[j..k] + s[k..l] + s[l..]
  {
  }

  /** s with the blocks [i, j) and [j, k) exchanged. */
  function Rotated(s: seq<string>, i: nat, j: nat, k: nat): seq<string>
    requires i <= j <= k <= |s|
  {
    s[..i] + s[j..k] + s[i..j] + s[k..]
  }

  /** exchange: the shorter block goes to its place at once, the longer one is two blocks that
      are exchanged next. */
  method Exchange(argv: array<string>, first: nat, last: nat, optind: nat)
    requires first <= last <= optind <= argv.Length
    modifies argv
    ensures argv[..] == Rotated(old(argv[..]), first, last, optind)
  {
    hide Rotated, Swapped;
    var bottom, middle, top := first, last, optind;
    ghost var target := Rotated(argv[..], first, last, optind);
    while top > middle && middle > bottom
      invariant 0 <= bottom <= middle <= top <= argv.Length
      invariant Rotated(argv[..], bottom, middle, top) == target
      decreases top - bottom
    {
      ghost var was := argv[..];
      if top - middle > middle - bottom {
        var len := middle - bottom;
        SwapBlocks(argv, bottom, top - len, len);
        LowBlockShort(was, argv[..], bottom, middle, top);
        top := top - len;
      } else {
        var len := top - middle;
        SwapBlocks(argv, bottom, middle, len);
        HighBlockShort(was, argv[..], bottom, middle, top);
        bottom := bottom + len;
      }
    }
    NothingToRotate(argv[..], bottom, middle, top);
  }

  lemma NothingToRotate(s: seq<string>, i: nat, j: nat, k: nat)
    requires i <= j <= k <= |s| && (i == j || j == k)
    ensures Rotated(s, i, j, k) == s
  {
  }

  lemma RotatedPieces(s: seq<string>, p: seq<string>, a: seq<string>, b: seq<string>, q: seq<string>)
    requires s == p + a + b + q
    ensures Rotated(s, |p|, |p| + |a|, |p| + |a| + |b|) == p + b + a + q
  {
    var i, j := |p| + |a|, |p| + |a| + |b|;
    assert s[..|p|] == p && s[|p|..i] == a && s[i..j] == b && s[j..] == q;
  }

  lemma TerminatorRotated(s: seq<string>, i: nat, j: nat)
    requires 1 <= i <= j < |s|
    ensures var r := Rotated(s, i, j, j + 1);
            |r| == |s| && r[0] == s[0] && r[..i + 1] == s[..i] + s[j..j + 1] && r[i + 1..] == s[i..j] + s[j + 1..]
    ensures i == j ==> s[..i + 1] == s[..i] + s[j..j + 1] && s[i + 1..] == s[i..j] + s[j + 1..]
  {
  }

  lemma LowBlockShort(was: seq<string>, now: seq<string>, bottom: nat, middle: nat, top: nat)
    requires bottom <= middle <= top <= |was| && top - middle > middle - bottom
    requires now == Swapped(was, bottom, top - (middle - bottom), middle - bottom)
    ensures Rotated(now, bottom, middle, top - (middle - bottom)) == Rotated(was, bottom, middle, top)
  {
    var y := top - (middle - bottom);
    var p, a, b, c, q := was[..bottom], was[bottom..middle], was[middle..y], was[y..top], was[top..];
    FivePieces(was, bottom, middle, y, top);
    SwappedAround(was, now, p, a, b, c, q);
    hide Swapped, Rotated;
    Associated(p, a, b, c, q);
    Associated(p, c, b, a, q);
    Associated(p, b, c, a, q);
    RotatedPieces(was, p, a, b + c, q);
    RotatedPieces(now, p, c, b, a + q);
  }

  lemma HighBlockShort(was: seq<string>, now: seq<string>, bottom: nat, middle: nat, top: nat)
    requires bottom <= middle <= top <= |was| && top - middle <= middle - bottom
    requires now == Swapped(was, bottom, middle, top - middle)
    ensures Rotated(now, bottom + (top - middle), middle, top) == Rotated(was, bottom, middle, top)
  {
    hide Swapped, Rotated;
    var x := bottom + (top - middle);
    var p, a, b, c, q := was[..bottom], was[bottom..x], was[x..middle], was[middle..top], was[top..];
    FivePieces(was, bottom, x, middle, top);
    SwappedAround(was, now, p, a, b, c, q);
    Associated(p, a, b, c, q);
    Associated(p, c, a, b, q);
    RotatedPieces(was, p, a + b, c, q);
    RotatedPieces(now, p + c, b, a, q);
  }

  lemma SwappedAround(was: seq<string>, now: seq<string>, p: seq<string>, a: seq<string>, b: seq<string>, c: seq<string>, q: seq<string>)
    requires was == p + a + b + c + q && |a| == |c| && now == Swapped(was, |p|, |p| + |a| + |b|, |a|)
    ensures now == p + c + b + a + q
  {
    var i, j, k := |p| + |a|, |p| + |a| + |b|, |p| + |a| + |b| + |c|;
    assert was[..|p|] == p && was[|p|..i] == a && was[i..j] == b && was[j..k] == c && was[k..] == q;
  }

  lemma Associated(p: seq<string>, a: seq<string>, b: seq<string>, c: seq<string>, q: seq<string>)
    ensures p + a + b + c + q == p + (a + b) + c + q
    ensures p + a + b + c + q == p + a + (b + c) + q
    ensures p + a + b + c + q == p + a + b + (c + q)
  {
  }

  /** The loop over the long options. */
  method LookUp(opts: seq<LongOption>, name: string) returns (m: Match)
    ensures m == LongMatch(opts, name)
  {
    var i, found, ambiguous := 0, |opts|, false;
    while i < |opts|
      invariant 0 <= i <= |opts| && 0 <= found <= |opts| && (forall j :: 0 <= j < i ==> opts[j].name != name)
      invariant found == |opts| ==> forall j :: 0 <= j < i ==> !(name <= opts[j].name)
      invariant found < |opts| ==> found < i && name <= opts[found].name && forall j :: 0 <= j < found ==> !(name <= opts[j].name)
      invariant ambiguous ==> found < |opts|
      invariant ambiguous <==> exists j :: found < j < i && name <= opts[j].name
    {
      if name <= opts[i].name {
        if |name| == |opts[i].name| {
          return Hit(i);
        } else if found == |opts| {
          found := i;
        } else {
          ambiguous := true;
        }
      }
      i := i + 1;
    }
    if ambiguous {
      return Ambiguous;
    }
    return if found < |opts| then Hit(found) else Miss;
  }

  /** my_index. */
  method MyIndex(s: string, c: char) returns (i: nat)
    ensures i == IndexOf(s, c)
  {
    i := 0;
    while i < |s| && s[i] != c
      invariant 0 <= i <= |s| && c !in s[..i]
    {
      i := i + 1;
    }
    IndexIs(s, c, i);
  }

  lemma {:induction false} IndexIs(s: string, c: char, i: nat)
    requires i <= |s| && c !in s[..i] && (i < |s| ==> s[i] == c)
    ensures IndexOf(s, c) == i
    decreases i
  {
    if i > 0 {
      assert s[0] in s[..i] && s[..i][1..] == s[1..][..i - 1];
      IndexIs(s[1..], c, i - 1);
    }
  }

  /** All that an argument list comes to when the part before o has been scanned: its
      non-options are in [f, l). */
  ghost function Total(cfg: Config, s: seq<string>, f: nat, l: nat, o: nat, next: string): Scanned
    requires 1 <= f <= l <= o <= |s| && (next != "" ==> o < |s|)
  {
    var r := Scan(cfg, s[o..], next);
    Scanned(r.events, s[1..f] + s[l..o] + r.opts, s[f..l] + r.nonopts)
  }

  lemma ExchangeKeepsTotal(cfg: Config, s: seq<string>, s': seq<string>, f: nat, l: nat, o: nat)
    requires 1 <= f <= l <= o <= |s| && s' == Rotated(s, f, l, o)
    ensures |s'| == |s| && s'[0] == s[0] && Total(cfg, s', f + (o - l), o, o, "") == Total(cfg, s, f, l, o, "")
  {
    hide Scan;
    var f' := f + (o - l);
    assert s'[o..] == s[o..] && s'[f'..o] == s[f..l];
    assert s'[1..f'] == s[1..f] + s[l..o];
    assert s'[1..f'] + s'[o..o] == s'[1..f'];
  }

  lemma NoBlockKeepsTotal(cfg: Config, s: seq<string>, f: nat, o: nat)
    requires 1 <= f <= o <= |s|
    ensures Total(cfg, s, o, o, o, "") == Total(cfg, s, f, f, o, "")
  {
    hide Scan;
    assert s[1..f] + s[f..o] == s[1..o] + s[o..o];
    assert s[f..f] == s[o..o] == [];
  }

  lemma SkippingKeepsTotal(cfg: Config, s: seq<string>, f: nat, o: nat)
    requires 1 <= f <= o < |s| && IsNonOption(s[o])
    ensures Total(cfg, s, f, o + 1, o + 1, "") == Total(cfg, s, f, o, o, "")
  {
    hide IsNonOption;
    ScanStep(cfg, s[o..]);
    hide Scan;
    var rest := Scan(cfg, s[o + 1..], "");
    assert s[o..][1..] == s[o + 1..];
    assert s[f..o + 1] + rest.nonopts == s[f..o] + ([s[o]] + rest.nonopts);
    assert s[o..o] == s[o + 1..o + 1];
  }

  lemma ScanStep(cfg: Config, args: seq<string>)
    requires args != []
    ensures IsNonOption(args[0]) ==>
      var rest := Scan(cfg, args[1..], ""); Scan(cfg, args, "") == Scanned(rest.events, rest.opts, [args[0]] + rest.nonopts)
    ensures !IsNonOption(args[0]) && args[0] == "--" ==> Scan(cfg, args, "") == Scanned([], ["--"], args[1..])
    ensures !IsNonOption(args[0]) && args[0] != "--" ==>
      var s := FirstStep(cfg, args); Scan(cfg, args, "") == AfterStep(s, args[..s.taken], Scan(cfg, args[s.taken..], s.next))
  {
    hide IsNonOption, FirstStep;
  }

  /** "--" at o ends the options. */
  function AtTerminator(s: seq<string>, f: nat, o: nat): Scanned
    requires 1 <= f <= o < |s|
  {
    Scanned([], s[1..f] + s[o..o + 1], s[f..o] + s[o + 1..])
  }

  lemma TerminatorTotal(cfg: Config, s: seq<string>, f: nat, o: nat)
    requires 1 <= f <= o < |s| && s[o] == "--"
    ensures Total(cfg, s, f, o, o, "") == AtTerminator(s, f, o)
  {
    assert !IsNonOption(s[o]);
    ScanStep(cfg, s[o..]);
    hide Scan;
    assert s[o..o + 1] == ["--"] && s[o..][1..] == s[o + 1..];
    assert s[1..f] + s[o..o] + ["--"] == s[1..f] + ["--"];
  }

  lemma EndTotal(cfg: Config, s: seq<string>, f: nat)
    requires 1 <= f <= |s|
    ensures Laid(s, f, Total(cfg, s, f, |s|, |s|, ""))
  {
    var o := |s|;
    assert s[o..] == [];
    assert Scan(cfg, s[o..], "") == Scanned([], [], []);
    hide Scan;
    assert s[1..f] + s[o..o] + [] == s[1..f] && s[f..o] + [] == s[f..];
    assert s == [s[0]] + s[1..f] + s[f..];
  }

  /** The step that comes next. */
  ghost function NextStep(cfg: Config, s: seq<string>, o: nat, next: string): (r: Step)
    requires o < |s| && (next == "" ==> !IsNonOption(s[o]) && s[o] != "--")
    ensures o + r.taken <= |s| && (r.next != "" ==> o + r.taken < |s|)
  {
    if next == "" then FirstStep(cfg, s[o..]) else ShortStep(cfg, s[o..], next)
  }

  lemma StepTotal(cfg: Config, s: seq<string>, f: nat, l: nat, o: nat, next: string)
    requires 1 <= f <= l <= o < |s| && (next == "" ==> !IsNonOption(s[o]) && s[o] != "--")
    ensures var t, r := Total(cfg, s, f, l, o, next), NextStep(cfg, s, o, next);
            t.events != [] && t.events[0] == r.event
            && Total(cfg, s, f, l, o + r.taken, r.next) == Scanned(t.events[1..], t.opts, t.nonopts)
  {
    hide Scan, NextStep, IsNonOption;
    var r := NextStep(cfg, s, o, next);
    ScanByStep(cfg, s, o, next);
    var rest := Scan(cfg, s[o + r.taken..], r.next);
    assert s[l..o + r.taken] == s[l..o] + s[o..o + r.taken];
    Regrouped(s[1..f], s[l..o], s[o..o + r.taken], rest.opts);
  }

  lemma Regrouped(a: seq<string>, b: seq<string>, c: seq<string>, d: seq<string>)
    ensures a + (b + c) + d == a + b + (c + d)
  {
  }

  lemma ScanByStep(cfg: Config, s: seq<string>, o: nat, next: string)
    requires o < |s| && (next == "" ==> !IsNonOption(s[o]) && s[o] != "--")
    ensures var r := NextStep(cfg, s, o, next);
            Scan(cfg, s[o..], next) == AfterStep(r, s[o..o + r.taken], Scan(cfg, s[o + r.taken..], r.next))
  {
    hide Scan, IsNonOption, FirstStep, ShortStep, AfterStep;
    var r := NextStep(cfg, s, o, next);
    if next == "" {
      ScanStep(cfg, s[o..]);
    } else {
      ClusterStep(cfg, s[o..], next);
    }
    assert s[o..][r.taken..] == s[o + r.taken..] && s[o..][..r.taken] == s[o..o + r.taken];
  }

  lemma ClusterStep(cfg: Config, args: seq<string>, next: string)
    requires args != []
    ensures next != "" ==>
      var s := ShortStep(cfg, args, next); Scan(cfg, args, next) == AfterStep(s, args[..s.taken], Scan(cfg, args[s.taken..], s.next))
  {
    hide ShortStep;
  }

  function Min(x: nat, y: nat): nat {
    if x < y then x else y
  }

  /** How the list ends up: the options with their arguments, then at optind all others. */
  ghost predicate Laid(s: seq<string>, optind: nat, t: Scanned) {
    s != [] && t.events == [] && optind == 1 + |t.opts| && s == [s[0]] + t.opts + t.nonopts
  }

  lemma TerminatorLaid(s: seq<string>, s': seq<string>, f: nat, o: nat, f': nat)
    requires 1 <= f <= o < |s| == |s'| && f' == f + 1
    requires s'[0] == s[0] && s'[..f'] == s[..f] + s[o..o + 1] && s'[f'..] == s[f..o] + s[o + 1..]
    ensures Laid(s', f', AtTerminator(s, f, o))
  {
    assert s' == s'[..f'] + s'[f'..];
    assert s'[..f'] == [s'[0]] + (s[1..f] + s[o..o + 1]);
  }

  class Getopt {
    var optind: nat
    var next: string       // what nextchar points to; empty also for NULL
    var first: nat         // first_nonopt
    var last: nat          // last_nonopt
    var optarg: Option<string>
    var optopt: int
    var initialized: bool
    var flags: map<nat, int>

    constructor ()
      ensures optind == 1 && !initialized
    {
      optind, next, first, last, optarg, optopt, initialized, flags := 1, "", 0, 0, None, QUESTION, false, map[];
    }

    /** Between calls. The caller may move optind back before the next element is taken. */
    ghost predicate Valid(cfg: Config, argv: array<string>)
      reads this, argv
    {
      && 1 <= first <= last && 1 <= optind <= argv.Length
      && (next != "" ==> last <= optind < argv.Length && !IsLong(cfg, argv[optind]))
    }

    ghost function All(cfg: Config, argv: array<string>): Scanned
      requires Valid(cfg, argv)
      reads this, argv
    {
      Total(cfg, argv[..], Min(first, optind), Min(last, optind), optind, next)
    }

    /** _getopt_initialize. */
    method Initialize()
      modifies this`optind, this`first, this`last, this`next, this`initialized
      ensures optind == old(if optind == 0 then 1 else optind) && first == last == optind && next == "" && initialized
    {
      if optind == 0 {
        optind := 1;
      }
      first, last, next, initialized := optind, optind, "", true;
    }

    /** "--" is exchanged with the non-options before it, and all after it are non-options. */
    method TakeTerminator(argv: array<string>)
      requires 1 <= first <= last == optind < argv.Length
      modifies this`optind, this`first, this`last, argv
      ensures argv[0] == old(argv[0]) && optind == last == argv.Length && 1 <= first <= last
      ensures argv[..first] == old(argv[..first] + argv[optind..optind + 1])
      ensures argv[first..] == old(argv[first..optind] + argv[optind + 1..])
    {
      hide Rotated;
      TerminatorRotated(argv[..], first, optind);
      optind := optind + 1;
      if first != last && last != optind {
        Exchange(argv, first, last, optind);
        first, last := first + (optind - last), optind;
      } else if first == last {
        first := optind;
      }
      last := argv.Length;
      optind := argv.Length;
    }

    /** The options scanned since the last non-options go before them, then more non-options
        are skipped. */
    method SkipNonOptions(cfg: Config, argv: array<string>)
      requires Valid(cfg, argv) && next == ""
      modifies this`optind, this`first, this`last, argv
      ensures argv[0] == old(argv[0]) && Valid(cfg, argv) && All(cfg, argv) == old(All(cfg, argv)) && last == optind
      ensures optind < argv.Length ==> !IsNonOption(argv[optind])
    {
      hide Total, IsNonOption;
      ghost var s := argv[..];
      ghost var t := All(cfg, argv);
      if last > optind {
        last := optind;
      }
      if first > optind {
        first := optind;
      }
      if first != last && last != optind {
        ExchangeKeepsTotal(cfg, s, Rotated(s, first, last, optind), first, last, optind);
        Exchange(argv, first, last, optind);
        first, last := first + (optind - last), optind;
      } else if last != optind {
        NoBlockKeepsTotal(cfg, s, first, optind);
        first := optind;
      }
      ghost var s' := argv[..];
      while optind < argv.Length && IsNonOption(argv[optind])
        invariant 1 <= first <= optind <= argv.Length && argv[..] == s'
        invariant Total(cfg, s', first, optind, optind, "") == t
      {
        SkippingKeepsTotal(cfg, s', first, optind);
        optind := optind + 1;
      }
      last := optind;
    }

    /** Going on to the next element that is an option; done when there is none. */
    method Advance(cfg: Config, argv: array<string>) returns (done: bool)
      requires Valid(cfg, argv) && next == ""
      modifies this`optind, this`first, this`last, argv
      ensures argv[0] == old(argv[0])
      ensures done ==> Laid(argv[..], optind, old(All(cfg, argv)))
      ensures Valid(cfg, argv) && (!done ==> All(cfg, argv) == old(All(cfg, argv)))
      ensures !done ==> last == optind < argv.Length && !IsNonOption(argv[optind]) && argv[optind] != "--"
    {
      hide Total, IsNonOption, Laid, AtTerminator;
      SkipNonOptions(cfg, argv);
      ghost var s, f, o := argv[..], first, optind;
      if optind != argv.Length && argv[optind] == "--" {
        TerminatorTotal(cfg, s, first, optind);
        TakeTerminator(argv);
        TerminatorLaid(s, argv[..], f, o, first);
      } else if optind == argv.Length {
        EndTotal(cfg, s, first);
      }
      if optind == argv.Length {
        if first != last {
          optind := first;
        }
        return true;
      }
      return false;
    }

    /** A long option: next is the text after its two dashes. */
    method DecodeLong(cfg: Config, argv: array<string>) returns (e: Event)
      requires 1 <= optind < argv.Length && cfg.longs.Some? && optarg == None
      modifies this`optind, this`next, this`optarg, this`optopt, this`flags
      ensures var s := LongStep(cfg, argv[old(optind)..], old(next));
        e == s.event && optind == old(optind) + s.taken && next == s.next && Reported(e, old(optopt), old(flags))
    {
      hide LongMatch, IndexOf;
      ghost var rest, text := argv[optind..], next;
      var nameEnd := MyIndex(next, '=');
      var m := LookUp(cfg.longs.value, next[..nameEnd]);
      optind := optind + 1;
      if !m.Hit? {
        next, optopt := "", 0;
        return Event(QUESTION, optarg, Some(0), None, None);
      }
      var o := cfg.longs.value[m.i];
      if nameEnd < |next| {
        if o.hasArg != NO_ARGUMENT {
          optarg := Some(next[nameEnd + 1..]);
        } else {
          next, optopt := "", o.val;
          return Event(QUESTION, optarg, Some(o.val), None, None);
        }
      } else if o.hasArg == REQUIRED_ARGUMENT {
        if optind < argv.Length {
          assert rest[1] == argv[optind];
          optarg := Some(argv[optind]);
          optind := optind + 1;
        } else {
          next, optopt := "", o.val;
          return Event(MissingArgument(cfg), optarg, Some(o.val), None, None);
        }
      }
      next := "";
      if o.flag.Some? {
        flags := flags[o.flag.value := o.val];
        return Event(0, optarg, None, Some(m.i), Some((o.flag.value, o.val)));
      }
      return Event(o.val, optarg, None, Some(m.i), None);
    }

    /** A character of a cluster of short options. */
    method DecodeShort(cfg: Config, argv: array<string>) returns (e: Event)
      requires Supported(cfg) && 1 <= optind < argv.Length && next != "" && optarg == None
      modifies this`optind, this`next, this`optarg, this`optopt
      ensures var s := ShortStep(cfg, argv[old(optind)..], old(next));
        e == s.event && optind == old(optind) + s.taken && next == s.next && Reported(e, old(optopt), old(flags))
    {
      hide IndexOf;
      ghost var rest := argv[optind..];
      var c := next[0];
      next := next[1..];
      var t := MyIndex(cfg.shorts, c);
      if next == "" {
        optind := optind + 1;
      }
      if t == |cfg.shorts| || c == ':' {
        optopt := c as int;
        return Event(QUESTION, optarg, Some(optopt), None, None);
      }
      if At(cfg.shorts, t + 1) == ':' {
        if At(cfg.shorts, t + 2) == ':' {
          if next != "" {
            optarg := Some(next);
            optind := optind + 1;
          } else {
            optarg := None;
          }
          next := "";
        } else {
          if next != "" {
            optarg := Some(next);
            optind := optind + 1;
          } else if optind == argv.Length {
            optopt := c as int;
            next := "";
            return Event(MissingArgument(cfg), optarg, Some(optopt), None, None);
          } else {
            assert rest[1] == argv[optind];
            optarg := Some(argv[optind]);
            optind := optind + 1;
          }
          next := "";
        }
      }
      return Event(c as int, optarg, None, None, None);
    }

    /** What the caller sees in the variables. */
    ghost predicate Reported(e: Event, optopt0: int, flags0: map<nat, int>)
      reads this
    {
      && optarg == e.arg && optopt == (if e.bad.Some? then e.bad.value else optopt0)
      && flags == if e.store.Some? then flags0[e.store.value.0 := e.store.value.1] else flags0
    }

    /** _getopt_internal in permuting order: the next option, or None for the result -1. */
    method Next(cfg: Config, argv: array<string>) returns (r: Option<Event>)
      requires Supported(cfg) && argv.Length >= 1 && if initialized && optind != 0 then Valid(cfg, argv) else optind <= argv.Length
      modifies this, argv
      ensures argv[0] == old(argv[0]) && initialized && optind != 0
      ensures var t := old(if initialized && optind != 0 then All(cfg, argv) else Total(cfg, argv[..], 1, 1, if optind == 0 then 1 else optind, ""));
        match r
        case None => Laid(argv[..], optind, t) && Reported(Plain(-1, None), old(optopt), old(flags))
        case Some(e) =>
          && t.events != [] && e == t.events[0] && Reported(e, old(optopt), old(flags))
          && Valid(cfg, argv) && All(cfg, argv) == Scanned(t.events[1..], t.opts, t.nonopts)
    {
      hide Total, IsNonOption, ShortStep, LongStep, Laid;
      optarg := None;
      if optind == 0 || !initialized {
        NoBlockKeepsTotal(cfg, argv[..], 1, if optind == 0 then 1 else optind);
        Initialize();
      }
      if next == "" {
        var done := Advance(cfg, argv);
        if done {
          return None;
        }
        OptionElement(argv[optind]);
      }
      StepTotal(cfg, argv[..], Min(first, optind), Min(last, optind), optind, next);
      if next == "" {
        next := argv[optind][if cfg.longs.Some? && argv[optind][1] == '-' then 2 else 1..];
      }
      var e;
      if IsLong(cfg, argv[optind]) {
        e := DecodeLong(cfg, argv);
      } else {
        e := DecodeShort(cfg, argv);
      }
      return Some(e);
    }
  }

  lemma OptionElement(arg: string)
    requires !IsNonOption(arg) && arg != "--"
    ensures |arg| >= 2 && (arg[1] == '-' ==> |arg| >= 3)
  {
    assert |arg| == 2 ==> arg == [arg[0], arg[1]];
  }

  /** Calling until -1. */
  method CallUntilEnd(g: Getopt, cfg: Config, argv: array<string>) returns (events: seq<Event>)
    requires Supported(cfg) && argv.Length >= 1 && g.optind <= 1 && (g.optind == 0 || !g.initialized)
    modifies g, argv
    ensures var t := Scan(cfg, old(argv[1..]), "");
      events == t.events && argv[0] == old(argv[0]) && Laid(argv[..], g.optind, Scanned([], t.opts, t.nonopts))
  {
    hide Scan, Total, Supported, Getopt.Valid, Getopt.All, Laid;
    ghost var t, prog := Scan(cfg, argv[1..], ""), argv[0];
    FirstTotal(cfg, argv[..]);
    events := [];
    var r := g.Next(cfg, argv);
    ghost var left := t.events;
    LaidWhenDone(argv[..], g.optind, t);
    while r.Some?
      invariant r.None? ==> left == [] && Laid(argv[..], g.optind, Scanned([], t.opts, t.nonopts))
      invariant r.Some? ==> left != [] && left[0] == r.value && g.Valid(cfg, argv)
      invariant r.Some? ==> g.All(cfg, argv) == Scanned(left[1..], t.opts, t.nonopts)
      invariant argv[0] == prog && g.initialized && g.optind != 0 && events + left == t.events
      decreases |left|
    {
      OneMore(events, left);
      events, left := events + [r.value], left[1..];
      r := g.Next(cfg, argv);
      LaidWhenDone(argv[..], g.optind, Scanned(left, t.opts, t.nonopts));
    }
    NoMore(events);
  }

  lemma OneMore(done: seq<Event>, left: seq<Event>)
    requires left != []
    ensures (done + [left[0]]) + left[1..] == done + left
  {
  }

  lemma NoMore(done: seq<Event>)
    ensures done + [] == done
  {
  }

  lemma LaidWhenDone(s: seq<string>, optind: nat, t: Scanned)
    ensures Laid(s, optind, t) ==> t.events == [] && t == Scanned([], t.opts, t.nonopts)
  {
  }

  /** From the start to -1: what is reported is what one reading of the arguments from left to
      right reports, and afterwards argv holds the program name, the options with their
      arguments, and from optind on the other arguments, each in their order. */
  method Run(g: Getopt, cfg: Config, argv: array<string>) returns (events: seq<Event>)
    requires Supported(cfg) && argv.Length >= 1 && g.optind <= 1 && (g.optind == 0 || !g.initialized)
    modifies g, argv
    ensures var t := Scan(cfg, old(argv[1..]), "");
      && events == t.events && argv[..] == [old(argv[0])] + t.opts + t.nonopts && g.optind == 1 + |t.opts|
      && Merges(old(argv[1..]), t.opts, t.nonopts)
    ensures multiset(argv[..]) == multiset(old(argv[..]))
  {
    hide Scan, Merges, Supported;
    ghost var args := argv[1..];
    ghost var t := Scan(cfg, args, "");
    events := CallUntilEnd(g, cfg, argv);
    ScanMerges(cfg, args, "");
    MergesIsPermutation(args, t.opts, t.nonopts);
    assert old(argv[..]) == [old(argv[0])] + args;
  }

  lemma FirstTotal(cfg: Config, s: seq<string>)
    requires s != []
    ensures Total(cfg, s, 1, 1, 1, "") == Scan(cfg, s[1..], "")
  {
    hide Scan;
    var r := Scan(cfg, s[1..], "");
    assert s[1..1] + s[1..1] + r.opts == r.opts && s[1..1] + r.nonopts == r.nonopts;
  }
}
