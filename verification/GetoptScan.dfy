/** What an argument list says, read once from left to right without moving anything: the
    reference for the permuting scanner of getopt.c. Strings are the bytes before the final
    zero. */
module GetoptScan {
  import opened DnsTypes

  const NO_ARGUMENT := 0
  const REQUIRED_ARGUMENT := 1

  /** struct pj_getopt_option; flag names the variable to store val in. */
  datatype LongOption = LongOption(name: string, hasArg: int, flag: Option<nat>, val: int)

  /** The option string, and the long options unless they are null. */
  datatype Config = Config(shorts: string, longs: Option<seq<LongOption>>)

  /** What one call reports: the returned value, pj_optarg, the value stored in pj_optopt, the
      index of a long option, and the assignment to its flag variable. */
  datatype Event = Event(code: int, arg: Option<string>, bad: Option<int>, index: Option<nat>, store: Option<(nat, int)>)

  /** One decoding step: what it reports, how many elements it finishes, and the characters of
      the current element that are left. */
  datatype Step = Step(event: Event, taken: nat, next: string)

  const QUESTION := '?' as int

  /** The character at i, or the final zero. */
  function At(s: string, i: nat): char {
    if i < |s| then s[i] else '\0'
  }

  /** my_index. */
  function IndexOf(s: string, c: char): (i: nat)
    ensures i <= |s| && (i < |s| ==> s[i] == c) && c !in s[..i]
  {
    if s == "" || s[0] == c then 0 else 1 + IndexOf(s[1..], c)
  }

  /** Permuted order, and no "W;" in the option string. */
  predicate Supported(cfg: Config) {
    At(cfg.shorts, 0) != '-' && At(cfg.shorts, 0) != '+' && At(cfg.shorts, IndexOf(cfg.shorts, 'W') + 1) != ';'
  }

  predicate IsNonOption(arg: string) {
    At(arg, 0) != '-' || At(arg, 1) == '\0'
  }

  function MissingArgument(cfg: Config): int {
    if At(cfg.shorts, 0) == ':' then ':' as int else QUESTION
  }

  function Plain(code: int, arg: Option<string>): Event {
    Event(code, arg, None, None, None)
  }

  function Bad(code: int, value: int): Event {
    Event(code, None, Some(value), None, None)
  }

  /** The next character of a cluster of short options; rest starts with its element. */
  function ShortStep(cfg: Config, rest: seq<string>, next: string): (s: Step)
    requires next != "" && rest != []
    ensures s.taken <= |rest| && (s.taken == 0 <==> s.next != "") && (s.next != "" ==> s.next == next[1..])
  {
    var c, more := next[0], next[1..];
    var t := IndexOf(cfg.shorts, c);
    if t == |cfg.shorts| || c == ':' then Step(Bad(QUESTION, c as int), if more == "" then 1 else 0, more)
    else if At(cfg.shorts, t + 1) != ':' then Step(Plain(c as int, None), if more == "" then 1 else 0, more)
    else if more != "" then Step(Plain(c as int, Some(more)), 1, "")
    else if At(cfg.shorts, t + 2) == ':' then Step(Plain(c as int, None), 1, "")
    else if |rest| == 1 then Step(Bad(MissingArgument(cfg), c as int), 1, "")
    else Step(Plain(c as int, Some(rest[1])), 2, "")
  }

  // ----- long options -----

  datatype Match = Hit(i: nat) | Ambiguous | Miss

  function FirstExact(opts: seq<LongOption>, name: string): (i: nat)
    ensures i <= |opts| && (i < |opts| ==> opts[i].name == name) && forall j :: 0 <= j < i ==> opts[j].name != name
  {
    if opts == [] || opts[0].name == name then 0 else 1 + FirstExact(opts[1..], name)
  }

  function FirstPrefixed(opts: seq<LongOption>, name: string): (i: nat)
    ensures i <= |opts| && (i < |opts| ==> name <= opts[i].name) && forall j :: 0 <= j < i ==> !(name <= opts[j].name)
  {
    if opts == [] || name <= opts[0].name then 0 else 1 + FirstPrefixed(opts[1..], name)
  }

  /** An exact name wins; otherwise the one name that it abbreviates. */
  function LongMatch(opts: seq<LongOption>, name: string): (m: Match)
    ensures m.Hit? ==> m.i < |opts| && name <= opts[m.i].name
    ensures m.Miss? <==> forall j :: 0 <= j < |opts| ==> !(name <= opts[j].name)
    ensures m.Ambiguous? <==>
      ((forall j :: 0 <= j < |opts| ==> opts[j].name != name) &&
       exists i, j :: 0 <= i < j < |opts| && name <= opts[i].name && name <= opts[j].name)
  {
    var e, p := FirstExact(opts, name), FirstPrefixed(opts, name);
    if e < |opts| then
      assert name <= opts[e].name;
      Hit(e)
    else if p == |opts| then Miss
    else if p + 1 + FirstPrefixed(opts[p + 1..], name) < |opts| then Ambiguous
    else
      assert forall j :: p < j < |opts| ==> opts[j] == opts[p + 1..][j - p - 1];
      Hit(p)
  }

  /** An element that starts with "--" when there are long options; rest starts with it. */
  function LongStep(cfg: Config, rest: seq<string>, next: string): (s: Step)
    requires rest != [] && cfg.longs.Some?
    ensures 1 <= s.taken <= |rest| && s.next == ""
  {
    var n := IndexOf(next, '=');
    match LongMatch(cfg.longs.value, next[..n])
    case Ambiguous => Step(Bad(QUESTION, 0), 1, "")
    case Miss => Step(Bad(QUESTION, 0), 1, "")
    case Hit(i) =>
      var o := cfg.longs.value[i];
      if n < |next| && o.hasArg == NO_ARGUMENT then Step(Bad(QUESTION, o.val), 1, "")
      else if n < |next| then Step(Chosen(o, i, Some(next[n + 1..])), 1, "")
      else if o.hasArg != REQUIRED_ARGUMENT then Step(Chosen(o, i, None), 1, "")
      else if |rest| == 1 then Step(Bad(MissingArgument(cfg), o.val), 1, "")
      else Step(Chosen(o, i, Some(rest[1])), 2, "")
  }

  function Chosen(o: LongOption, i: nat, arg: Option<string>): Event {
    if o.flag.Some? then Event(0, arg, None, Some(i), Some((o.flag.value, o.val))) else Event(o.val, arg, None, Some(i), None)
  }

  predicate IsLong(cfg: Config, arg: string) {
    cfg.longs.Some? && At(arg, 1) == '-'
  }

  /** The first step on an option element. */
  function FirstStep(cfg: Config, args: seq<string>): (s: Step)
    requires args != [] && !IsNonOption(args[0]) && args[0] != "--"
    ensures s.taken <= |args| && (s.taken == 0 <==> s.next != "") && (s.next != "" ==> !IsLong(cfg, args[0]) && |s.next| + 2 == |args[0]|)
  {
    if IsLong(cfg, args[0]) then LongStep(cfg, args, args[0][2..]) else ShortStep(cfg, args, args[0][1..])
  }

  // ----- the whole list -----

  /** Everything that is reported, the options with their arguments, and the rest. */
  datatype Scanned = Scanned(events: seq<Event>, opts: seq<string>, nonopts: seq<string>)

  function AfterStep(s: Step, taken: seq<string>, rest: Scanned): Scanned {
    Scanned([s.event] + rest.events, taken + rest.opts, rest.nonopts)
  }

  function Scan(cfg: Config, args: seq<string>, next: string): Scanned
    requires next != "" ==> args != []
    decreases |args|, if next == "" then 1 else 0, |next|
  {
    if next != "" then
      var s := ShortStep(cfg, args, next);
      AfterStep(s, args[..s.taken], Scan(cfg, args[s.taken..], s.next))
    else if args == [] then Scanned([], [], [])
    else if IsNonOption(args[0]) then
      var rest := Scan(cfg, args[1..], "");
      Scanned(rest.events, rest.opts, [args[0]] + rest.nonopts)
    else if args[0] == "--" then Scanned([], ["--"], args[1..])
    else
      var s := FirstStep(cfg, args);
      AfterStep(s, args[..s.taken], Scan(cfg, args[s.taken..], s.next))
  }

  /** args is a and b merged, both in their order. */
  predicate Merges(args: seq<string>, a: seq<string>, b: seq<string>)
    decreases |args|
  {
    if args == [] then a == [] && b == []
    else (a != [] && a[0] == args[0] && Merges(args[1..], a[1..], b)) || (b != [] && b[0] == args[0] && Merges(args[1..], a, b[1..]))
  }

  lemma {:induction false} MergesLeft(args: seq<string>, k: nat, a: seq<string>, b: seq<string>)
    requires k <= |args| && Merges(args[k..], a, b)
    ensures Merges(args, args[..k] + a, b)
    decreases k
  {
    if k == 0 {
      assert args[..0] + a == a && args[0..] == args;
    } else {
      assert args[1..][k - 1..] == args[k..];
      MergesLeft(args[1..], k - 1, a, b);
      assert (args[..k] + a)[1..] == args[1..][..k - 1] + a;
    }
  }

  lemma {:induction false} MergesRight(args: seq<string>)
    ensures Merges(args, [], args)
    decreases |args|
  {
    if args != [] {
      MergesRight(args[1..]);
    }
  }

  /** Nothing is lost, added or reordered: the arguments are the options and the rest merged. */
  lemma {:induction false} ScanMerges(cfg: Config, args: seq<string>, next: string)
    requires next != "" ==> args != []
    ensures Merges(args, Scan(cfg, args, next).opts, Scan(cfg, args, next).nonopts)
    decreases |args|, if next == "" then 1 else 0, |next|
  {
    hide ShortStep, FirstStep, IsNonOption, Merges;
    var r := Scan(cfg, args, next);
    if next != "" {
      var s := ShortStep(cfg, args, next);
      ScanMerges(cfg, args[s.taken..], s.next);
      MergesLeft(args, s.taken, Scan(cfg, args[s.taken..], s.next).opts, r.nonopts);
    } else if args == [] {
      MergesRight([]);
    } else if IsNonOption(args[0]) {
      ScanMerges(cfg, args[1..], "");
      MergesOne(args, r.opts, r.nonopts);
    } else if args[0] == "--" {
      MergesRight(args[1..]);
      MergesLeft(args, 1, [], args[1..]);
      assert args[..1] + [] == ["--"];
    } else {
      var s := FirstStep(cfg, args);
      ScanMerges(cfg, args[s.taken..], s.next);
      MergesLeft(args, s.taken, Scan(cfg, args[s.taken..], s.next).opts, r.nonopts);
    }
  }

  lemma MergesOne(args: seq<string>, a: seq<string>, b: seq<string>)
    requires args != [] && b != [] && b[0] == args[0] && Merges(args[1..], a, b[1..])
    ensures Merges(args, a, b)
  {
  }

  lemma {:induction false} MergesIsPermutation(args: seq<string>, a: seq<string>, b: seq<string>)
    requires Merges(args, a, b)
    ensures multiset(args) == multiset(a) + multiset(b)
    decreases |args|
  {
    if args != [] {
      assert args == [args[0]] + args[1..];
      if a != [] && a[0] == args[0] && Merges(args[1..], a[1..], b) {
        MergesIsPermutation(args[1..], a[1..], b);
        assert a == [a[0]] + a[1..];
      } else {
        MergesIsPermutation(args[1..], a, b[1..]);
        assert b == [b[0]] + b[1..];
      }
    }
  }

  /** Without a "--" among the options and their arguments, every argument left over lacks
      option syntax. */
  lemma {:induction false} LeftOverAreNonOptions(cfg: Config, args: seq<string>, next: string)
    requires next != "" ==> args != []
    ensures "--" !in Scan(cfg, args, next).opts ==> forall i :: 0 <= i < |Scan(cfg, args, next).nonopts| ==> IsNonOption(Scan(cfg, args, next).nonopts[i])
    decreases |args|, if next == "" then 1 else 0, |next|
  {
    hide ShortStep, FirstStep, IsNonOption;
    if next != "" {
      var s := ShortStep(cfg, args, next);
      LeftOverAreNonOptions(cfg, args[s.taken..], s.next);
    } else if args != [] {
      if IsNonOption(args[0]) {
        LeftOverAreNonOptions(cfg, args[1..], "");
      } else if args[0] != "--" {
        var s := FirstStep(cfg, args);
        LeftOverAreNonOptions(cfg, args[s.taken..], s.next);
      }
    }
  }
}
