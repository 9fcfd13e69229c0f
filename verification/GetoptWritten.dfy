/** Command lines as they are meant: options of their declared kinds with their arguments, and
    other words, written out as arguments; and what the scanner of getopt.c makes of them. */
module GetoptWritten {
  import opened DnsTypes
  import opened GetoptScan
  import opened GetoptObject

  // ----- what is declared -----

  datatype Kind = Plain | Required | Optional

  /** The kind of the option at t of the option string, by the colons after it. */
  function KindAt(shorts: string, t: nat): Kind {
    if t + 1 < |shorts| && shorts[t + 1] == ':' then
      if t + 2 < |shorts| && shorts[t + 2] == ':' then Optional else Required
    else Plain
  }

  /** c is an option of this kind: its first place in the option string says so. */
  predicate Declared(shorts: string, c: char, kind: Kind) {
    c != ':' && exists t :: 0 <= t < |shorts| && shorts[t] == c && c !in shorts[..t] && KindAt(shorts, t) == kind
  }

  predicate Unknown(shorts: string, c: char) {
    c == ':' || c !in shorts
  }

  predicate Fits(opts: seq<LongOption>, typed: string, i: nat) {
    i < |opts| && |typed| <= |opts[i].name| && opts[i].name[..|typed|] == typed
  }

  predicate Exactly(opts: seq<LongOption>, typed: string, i: nat) {
    i < |opts| && opts[i].name == typed
  }

  /** What is typed means option i: it is the first of that name, or the only one that the text
      abbreviates. */
  predicate Means(opts: seq<LongOption>, typed: string, i: nat) {
    || (Exactly(opts, typed, i) && forall j :: 0 <= j < i ==> !Exactly(opts, typed, j))
    || (Fits(opts, typed, i) && forall j :: 0 <= j < |opts| && j != i ==> !Fits(opts, typed, j))
  }

  predicate MeansNothing(opts: seq<LongOption>, typed: string) {
    forall j :: 0 <= j < |opts| ==> !Fits(opts, typed, j)
  }

  predicate MeansSeveral(opts: seq<LongOption>, typed: string) {
    (forall j :: 0 <= j < |opts| ==> !Exactly(opts, typed, j))
    && exists i, j :: 0 <= i < j < |opts| && Fits(opts, typed, i) && Fits(opts, typed, j)
  }

  // ----- command lines -----

  /** The end of a cluster of short options. */
  datatype Tail =
    | NoTail
    | Attached(c: char, arg: string)   // -ofile
    | Separate(c: char, arg: string)   // -o file
    | Bare(c: char)                    // an optional argument left out

  datatype Item =
    | Cluster(flags: string, tail: Tail)
    | Long(i: nat, typed: string, eq: Option<string>, next: Option<string>)
    | BadLong(typed: string, eq: Option<string>)      // no option, or no single one
    | ExtraArg(i: nat, typed: string, arg: string)    // an option that takes no argument
    | Word(text: string)

  datatype End =
    | Nothing
    | Terminator(rest: seq<string>)
    | MissingShort(flags: string, c: char)
    | MissingLong(i: nat, typed: string)

  function TailText(t: Tail): string {
    match t
    case NoTail => ""
    case Attached(c, arg) => [c] + arg
    case Separate(c, _) => [c]
    case Bare(c) => [c]
  }

  function EqText(eq: Option<string>): string {
    if eq.Some? then "=" + eq.value else ""
  }

  function ItemArgs(item: Item): seq<string> {
    match item
    case Cluster(flags, tail) => ["-" + (flags + TailText(tail))] + if tail.Separate? then [tail.arg] else []
    case Long(_, typed, eq, next) => ["--" + (typed + EqText(eq))] + if next.Some? then [next.value] else []
    case BadLong(typed, eq) => ["--" + (typed + EqText(eq))]
    case ExtraArg(_, typed, arg) => ["--" + (typed + EqText(Some(arg)))]
    case Word(text) => [text]
  }

  function EndArgs(end: End): seq<string> {
    match end
    case Nothing => []
    case Terminator(rest) => ["--"] + rest
    case MissingShort(flags, c) => ["-" + (flags + [c])]
    case MissingLong(_, typed) => ["--" + typed]
  }

  function Args(items: seq<Item>, end: End): seq<string> {
    if items == [] then EndArgs(end) else ItemArgs(items[0]) + Args(items[1..], end)
  }

  // ----- which of them are well formed -----

  predicate GoodFlags(cfg: Config, flags: string) {
    forall k :: 0 <= k < |flags| ==> flags[k] != '\0' && (Declared(cfg.shorts, flags[k], Plain) || Unknown(cfg.shorts, flags[k]))
  }

  /** A text that is not taken for a long option or the end of the options. */
  predicate ShortText(cfg: Config, text: string) {
    text != "" && text[0] != '\0' && (text[0] == '-' ==> cfg.longs.None? && text != "-")
  }

  predicate GoodTail(cfg: Config, tail: Tail) {
    match tail
    case NoTail => true
    case Attached(c, arg) => c != '\0' && arg != "" && (Declared(cfg.shorts, c, Required) || Declared(cfg.shorts, c, Optional))
    case Separate(c, _) => c != '\0' && Declared(cfg.shorts, c, Required)
    case Bare(c) => c != '\0' && Declared(cfg.shorts, c, Optional)
  }

  predicate LongText(cfg: Config, typed: string, eq: Option<string>) {
    cfg.longs.Some? && '=' !in typed && (typed == "" ==> eq.Some?)
  }

  predicate GoodItem(cfg: Config, item: Item) {
    match item
    case Cluster(flags, tail) => GoodFlags(cfg, flags) && GoodTail(cfg, tail) && ShortText(cfg, flags + TailText(tail))
    case Long(i, typed, eq, next) =>
      LongText(cfg, typed, eq) && i < |cfg.longs.value| && Means(cfg.longs.value, typed, i)
      && (var has := cfg.longs.value[i].hasArg;
          if has == 0 then eq.None? && next.None? else if has == 1 then eq.Some? != next.Some? else next.None?)
    case BadLong(typed, eq) =>
      LongText(cfg, typed, eq) && (MeansNothing(cfg.longs.value, typed) || MeansSeveral(cfg.longs.value, typed))
    case ExtraArg(i, typed, arg) =>
      LongText(cfg, typed, Some(arg)) && i < |cfg.longs.value| && Means(cfg.longs.value, typed, i) && cfg.longs.value[i].hasArg == 0
    case Word(text) => text == "" || text[0] != '-' || text == "-"
  }

  predicate GoodEnd(cfg: Config, end: End) {
    match end
    case Nothing => true
    case Terminator(_) => true
    case MissingShort(flags, c) => c != '\0' && GoodFlags(cfg, flags) && Declared(cfg.shorts, c, Required) && ShortText(cfg, flags + [c])
    case MissingLong(i, typed) => LongText(cfg, typed, None) && i < |cfg.longs.value| && Means(cfg.longs.value, typed, i) && cfg.longs.value[i].hasArg == 1
  }

  // ----- what is to be reported -----

  function Told(c: char, arg: Option<string>): Event {
    Event(c as int, arg, None, None, None)
  }

  /** '?', with the character or value that is to blame. */
  function Blamed(value: int): Event {
    Event('?' as int, None, Some(value), None, None)
  }

  function FlagEvents(cfg: Config, flags: string): seq<Event> {
    if flags == "" then []
    else [if Unknown(cfg.shorts, flags[0]) then Blamed(flags[0] as int) else Told(flags[0], None)] + FlagEvents(cfg, flags[1..])
  }

  function TailEvents(tail: Tail): seq<Event> {
    match tail
    case NoTail => []
    case Attached(c, arg) => [Told(c, Some(arg))]
    case Separate(c, arg) => [Told(c, Some(arg))]
    case Bare(c) => [Told(c, None)]
  }

  function LongEvent(o: LongOption, i: nat, arg: Option<string>): Event {
    match o.flag
    case Some(f) => Event(0, arg, None, Some(i), Some((f, o.val)))
    case None => Event(o.val, arg, None, Some(i), None)
  }

  function ItemEvents(cfg: Config, item: Item): seq<Event>
    requires GoodItem(cfg, item)
  {
    match item
    case Cluster(flags, tail) => FlagEvents(cfg, flags) + TailEvents(tail)
    case Long(i, _, eq, next) => [LongEvent(cfg.longs.value[i], i, if eq.Some? then eq else next)]
    case BadLong(_, _) => [Blamed(0)]
    case ExtraArg(i, _, _) => [Blamed(cfg.longs.value[i].val)]
    case Word(_) => []
  }

  /** ':' for a missing argument if the option string begins with it, else '?'. */
  function Missing(cfg: Config, value: int): Event {
    Event(if cfg.shorts != "" && cfg.shorts[0] == ':' then ':' as int else '?' as int, None, Some(value), None, None)
  }

  function EndEvents(cfg: Config, end: End): seq<Event>
    requires GoodEnd(cfg, end)
  {
    match end
    case Nothing => []
    case Terminator(_) => []
    case MissingShort(flags, c) => FlagEvents(cfg, flags) + [Missing(cfg, c as int)]
    case MissingLong(i, _) => [Missing(cfg, cfg.longs.value[i].val)]
  }

  predicate GoodLine(cfg: Config, items: seq<Item>, end: End) {
    (forall k :: 0 <= k < |items| ==> GoodItem(cfg, items[k])) && GoodEnd(cfg, end)
  }

  function Events(cfg: Config, items: seq<Item>, end: End): seq<Event>
    requires GoodLine(cfg, items, end)
  {
    if items == [] then EndEvents(cfg, end) else ItemEvents(cfg, items[0]) + Events(cfg, items[1..], end)
  }

  /** The options with their arguments, in order. */
  function OptionArgs(items: seq<Item>, end: End): seq<string> {
    if items == [] then if end.Terminator? then ["--"] else EndArgs(end)
    else (if items[0].Word? then [] else ItemArgs(items[0])) + OptionArgs(items[1..], end)
  }

  /** The other words, in order. */
  function Words(items: seq<Item>, end: End): seq<string> {
    if items == [] then if end.Terminator? then end.rest else []
    else (if items[0].Word? then [items[0].text] else []) + Words(items[1..], end)
  }

  // ----- the scan of one item -----

  lemma DeclaredIs(shorts: string, c: char, kind: Kind)
    requires Declared(shorts, c, kind)
    ensures var t := IndexOf(shorts, c);
            && t < |shorts| && c != ':'
            && (At(shorts, t + 1) == ':' <==> kind != Plain) && (kind != Plain ==> (At(shorts, t + 2) == ':' <==> kind == Optional))
  {
    var t :| 0 <= t < |shorts| && shorts[t] == c && c !in shorts[..t] && KindAt(shorts, t) == kind;
    IndexIs(shorts, c, t);
  }

  lemma UnknownIs(shorts: string, c: char)
    requires Unknown(shorts, c)
    ensures IndexOf(shorts, c) == |shorts| || c == ':'
  {
    var u := IndexOf(shorts, c);
    assert u < |shorts| ==> shorts[u] in shorts;
  }

  /** What the scan of an element comes to when rest of its characters are left. */
  function Going(cfg: Config, args: seq<string>, rest: string): Scanned
    requires args != []
  {
    if rest != "" then Scan(cfg, args, rest) else AfterElement(args[0], Scan(cfg, args[1..], ""))
  }

  function AfterElement(element: string, r: Scanned): Scanned {
    Scanned(r.events, [element] + r.opts, r.nonopts)
  }

  function Before(events: seq<Event>, r: Scanned): Scanned {
    Scanned(events + r.events, r.opts, r.nonopts)
  }

  lemma OneFlag(cfg: Config, args: seq<string>, next: string)
    requires args != [] && next != "" && (Declared(cfg.shorts, next[0], Plain) || Unknown(cfg.shorts, next[0]))
    ensures Scan(cfg, args, next) ==
            Before([if Unknown(cfg.shorts, next[0]) then Blamed(next[0] as int) else Told(next[0], None)], Going(cfg, args, next[1..]))
  {
    hide IndexOf, Declared;
    if Unknown(cfg.shorts, next[0]) {
      UnknownIs(cfg.shorts, next[0]);
    } else {
      DeclaredIs(cfg.shorts, next[0], Plain);
    }
    hide Unknown;
    if next[1..] == "" {
      assert args[..1] == [args[0]];
    } else {
      assert args[0..] == args && args[..0] == [];
      var r := Scan(cfg, args, next[1..]);
      assert [] + r.opts == r.opts;
    }
  }

  lemma {:induction false} FlagsScan(cfg: Config, args: seq<string>, flags: string, rest: string)
    requires args != [] && GoodFlags(cfg, flags)
    ensures Going(cfg, args, flags + rest) == Before(FlagEvents(cfg, flags), Going(cfg, args, rest))
    decreases |flags|
  {
    hide Scan, Going, Declared, Unknown;
    if flags == "" {
      assert flags + rest == rest;
      NoEvents(Going(cfg, args, rest));
    } else {
      FlagsGoing(cfg, args, flags + rest);
      assert (flags + rest)[1..] == flags[1..] + rest;
      OneFlag(cfg, args, flags + rest);
      FlagsScan(cfg, args, flags[1..], rest);
      EventsOn([FlagEvents(cfg, flags)[0]], FlagEvents(cfg, flags[1..]), Going(cfg, args, rest));
    }
  }

  lemma FlagsGoing(cfg: Config, args: seq<string>, next: string)
    requires args != [] && next != ""
    ensures Going(cfg, args, next) == Scan(cfg, args, next)
  {
  }

  lemma NoEvents(r: Scanned)
    ensures Before([], r) == r
  {
    assert [] + r.events == r.events;
  }

  lemma EventsOn(a: seq<Event>, b: seq<Event>, r: Scanned)
    ensures Before(a, Before(b, r)) == Before(a + b, r)
  {
    assert a + (b + r.events) == a + b + r.events;
  }

  /** The last option of a cluster, with its argument if that is another element. */
  lemma TailScan(cfg: Config, element: string, tail: Tail, more: seq<string>)
    requires GoodTail(cfg, tail)
    ensures var own: seq<string> := if tail.Separate? then [element, tail.arg] else [element];
            var r := Scan(cfg, more, "");
            Going(cfg, own + more, TailText(tail)) == Scanned(TailEvents(tail) + r.events, own + r.opts, r.nonopts)
  {
    hide IndexOf, Declared, Scan;
    var own: seq<string> := if tail.Separate? then [element, tail.arg] else [element];
    var args := own + more;
    var r := Scan(cfg, more, "");
    assert args[..|own|] == own && args[|own|..] == more;
    if tail.NoTail? {
      NoEvents(r);
    } else {
      var c := tail.c;
      var kind := if tail.Bare? then Optional else if tail.Separate? then Required else if Declared(cfg.shorts, c, Required) then Required else Optional;
      DeclaredIs(cfg.shorts, c, kind);
      ClusterScan(cfg, args, TailText(tail));
      assert TailText(tail)[0] == c;
      assert tail.Attached? ==> TailText(tail)[1..] == tail.arg;
    }
  }

  lemma ClusterScan(cfg: Config, args: seq<string>, next: string)
    requires args != [] && next != ""
    ensures var s := ShortStep(cfg, args, next); Scan(cfg, args, next) == AfterStep(s, args[..s.taken], Scan(cfg, args[s.taken..], s.next))
  {
    hide ShortStep;
  }

  /** An element of short options is scanned from its second character on. */
  lemma ShortElement(cfg: Config, args: seq<string>, text: string)
    requires args != [] && args[0] == "-" + text && ShortText(cfg, text)
    ensures Scan(cfg, args, "") == Scan(cfg, args, text)
  {
    var e := args[0];
    assert e[1..] == text && e[0] == '-' && e[1] == text[0];
    assert "--"[1..] == "-" && text != "-";
    assert !IsNonOption(e) && !IsLong(cfg, e);
    hide ShortStep, LongStep;
    ClusterScan(cfg, args, text);
    ScanStep(cfg, args);
  }

  // ----- long options -----

  lemma FitsIs(opts: seq<LongOption>, typed: string, i: nat)
    ensures Fits(opts, typed, i) <==> i < |opts| && typed <= opts[i].name
  {
  }

  /** What is typed is looked up as it is meant. */
  lemma LookedUp(opts: seq<LongOption>, typed: string)
    ensures forall i :: 0 <= i < |opts| && Means(opts, typed, i) ==> LongMatch(opts, typed) == Hit(i)
    ensures MeansNothing(opts, typed) ==> LongMatch(opts, typed) == Miss
    ensures MeansSeveral(opts, typed) ==> LongMatch(opts, typed) == Ambiguous
  {
    forall i: nat ensures Fits(opts, typed, i) <==> i < |opts| && typed <= opts[i].name { FitsIs(opts, typed, i); }
    hide Fits, LongMatch;
    forall i | 0 <= i < |opts| && Means(opts, typed, i) ensures LongMatch(opts, typed) == Hit(i) {
      MeansIsHit(opts, typed, i);
    }
    if MeansSeveral(opts, typed) {
      var i, j :| 0 <= i < j < |opts| && Fits(opts, typed, i) && Fits(opts, typed, j);
      assert typed <= opts[i].name && typed <= opts[j].name;
      forall k | 0 <= k < |opts| ensures opts[k].name != typed { assert !Exactly(opts, typed, k); }
    }
  }

  lemma MeansIsHit(opts: seq<LongOption>, typed: string, i: nat)
    requires i < |opts| && Means(opts, typed, i)
    ensures LongMatch(opts, typed) == Hit(i)
  {
    var e := FirstExact(opts, typed);
    forall j: nat ensures Fits(opts, typed, j) <==> j < |opts| && typed <= opts[j].name { FitsIs(opts, typed, j); }
    hide Fits;
    assert e < |opts| ==> Exactly(opts, typed, e);
    assert Exactly(opts, typed, i) ==> e <= i;
    if Exactly(opts, typed, i) && forall j :: 0 <= j < i ==> !Exactly(opts, typed, j) {
      assert e == i;
    } else {
      assert e < |opts| ==> Exactly(opts, typed, e) && Fits(opts, typed, e);
      assert e == |opts| || e == i;
    }
  }

  lemma TextSplit(typed: string, eq: Option<string>)
    requires '=' !in typed
    ensures var text := typed + EqText(eq);
            var n := IndexOf(text, '=');
            && n == |typed| && text[..n] == typed && (n < |text| <==> eq.Some?) && (eq.Some? ==> text[n + 1..] == eq.value)
  {
    var text := typed + EqText(eq);
    assert text[..|typed|] == typed;
    assert eq.Some? ==> text[|typed|] == '=' && text[|typed| + 1..] == eq.value;
    IndexIs(text, '=', |typed|);
  }

  /** An element of a long option is one step. */
  lemma LongElement(cfg: Config, args: seq<string>, typed: string, eq: Option<string>)
    requires args != [] && args[0] == "--" + (typed + EqText(eq)) && LongText(cfg, typed, eq)
    ensures var s := LongStep(cfg, args, typed + EqText(eq));
            Scan(cfg, args, "") == AfterStep(s, args[..s.taken], Scan(cfg, args[s.taken..], ""))
  {
    var e, text := args[0], typed + EqText(eq);
    assert e[2..] == text && e[0] == '-' && e[1] == '-';
    assert text != "" && |e| > 2;
    assert !IsNonOption(e) && IsLong(cfg, e) && e != "--";
    hide ShortStep, LongStep;
    ScanStep(cfg, args);
  }

  lemma LongScan(cfg: Config, item: Item, more: seq<string>)
    requires GoodItem(cfg, item) && (item.Long? || item.BadLong? || item.ExtraArg?)
    ensures var r := Scan(cfg, more, "");
            Scan(cfg, ItemArgs(item) + more, "") == Scanned(ItemEvents(cfg, item) + r.events, ItemArgs(item) + r.opts, r.nonopts)
  {
    hide Scan, IndexOf, LongMatch, Means, MeansNothing, MeansSeveral;
    var eq := if item.ExtraArg? then Some(item.arg) else item.eq;
    var own := ItemArgs(item);
    var args := own + more;
    assert args[..|own|] == own && args[|own|..] == more && args[0] == own[0];
    LongElement(cfg, args, item.typed, eq);
    TextSplit(item.typed, eq);
    LookedUp(cfg.longs.value, item.typed);
  }

  // ----- the scan of a whole line -----

  lemma WordScan(cfg: Config, text: string, more: seq<string>)
    requires GoodItem(cfg, Word(text))
    ensures var r := Scan(cfg, more, ""); Scan(cfg, [text] + more, "") == Scanned(r.events, r.opts, [text] + r.nonopts)
  {
    assert IsNonOption(text);
    hide IsNonOption;
    var args := [text] + more;
    assert args[1..] == more;
    ScanStep(cfg, args);
  }

  lemma ClusterItemScan(cfg: Config, item: Item, more: seq<string>)
    requires GoodItem(cfg, item) && item.Cluster?
    ensures var r := Scan(cfg, more, "");
            Scan(cfg, ItemArgs(item) + more, "") == Scanned(ItemEvents(cfg, item) + r.events, ItemArgs(item) + r.opts, r.nonopts)
  {
    hide Scan, GoodFlags, GoodTail, Going, FlagEvents;
    var text := item.flags + TailText(item.tail);
    var element := "-" + text;
    var args := ItemArgs(item) + more;
    ShortElement(cfg, args, text);
    FlagsGoing(cfg, args, text);
    FlagsScan(cfg, args, item.flags, TailText(item.tail));
    assert ItemArgs(item) == if item.tail.Separate? then [element, item.tail.arg] else [element];
    TailScan(cfg, element, item.tail, more);
    EventsOn(FlagEvents(cfg, item.flags), TailEvents(item.tail), Scan(cfg, more, ""));
  }

  lemma ItemScan(cfg: Config, item: Item, more: seq<string>)
    requires GoodItem(cfg, item)
    ensures var r := Scan(cfg, more, "");
            var own: seq<string> := if item.Word? then [] else ItemArgs(item);
            var word: seq<string> := if item.Word? then [item.text] else [];
            Scan(cfg, ItemArgs(item) + more, "") == Scanned(ItemEvents(cfg, item) + r.events, own + r.opts, word + r.nonopts)
  {
    hide Scan, GoodItem;
    var r := Scan(cfg, more, "");
    assert [] + r.events == r.events && [] + r.opts == r.opts && [] + r.nonopts == r.nonopts;
    if item.Word? {
      WordScan(cfg, item.text, more);
    } else if item.Cluster? {
      ClusterItemScan(cfg, item, more);
    } else {
      LongScan(cfg, item, more);
    }
  }

  lemma EndScan(cfg: Config, end: End)
    requires GoodEnd(cfg, end)
    ensures Scan(cfg, EndArgs(end), "") == Scanned(EndEvents(cfg, end), OptionArgs([], end), Words([], end))
  {
    var args := EndArgs(end);
    match end {
      case Nothing =>
      case Terminator(rest) =>
        assert args[1..] == rest;
        assert !IsNonOption("--");
        ScanStep(cfg, args);
      case MissingShort(flags, c) => MissingShortScan(cfg, flags, c);
      case MissingLong(i, typed) => MissingLongScan(cfg, i, typed);
    }
  }

  lemma MissingShortScan(cfg: Config, flags: string, c: char)
    requires GoodEnd(cfg, MissingShort(flags, c))
    ensures var e := "-" + (flags + [c]); Scan(cfg, [e], "") == Scanned(FlagEvents(cfg, flags) + [Missing(cfg, c as int)], [e], [])
  {
    hide IndexOf, Declared, Scan, GoodFlags, FlagEvents;
    var e := "-" + (flags + [c]);
    ShortElement(cfg, [e], flags + [c]);
    FlagsGoing(cfg, [e], flags + [c]);
    FlagsScan(cfg, [e], flags, [c]);
    FlagsGoing(cfg, [e], [c]);
    DeclaredIs(cfg.shorts, c, Required);
    ClusterScan(cfg, [e], [c]);
    EmptyScan(cfg);
    assert [c][0] == c && [c][1..] == "" && [e][1..] == [] && [e][..1] == [e];
    assert FlagEvents(cfg, flags) + ([Missing(cfg, c as int)] + []) == FlagEvents(cfg, flags) + [Missing(cfg, c as int)];
  }

  lemma EmptyScan(cfg: Config)
    ensures Scan(cfg, [], "") == Scanned([], [], [])
  {
  }

  lemma MissingLongScan(cfg: Config, i: nat, typed: string)
    requires GoodEnd(cfg, MissingLong(i, typed))
    ensures var e := "--" + typed; Scan(cfg, [e], "") == Scanned([Missing(cfg, cfg.longs.value[i].val)], [e], [])
  {
    hide IndexOf, Scan, LongMatch, Means;
    var e := "--" + typed;
    assert typed + EqText(None) == typed;
    LongElement(cfg, [e], typed, None);
    TextSplit(typed, None);
    LookedUp(cfg.longs.value, typed);
    EmptyScan(cfg);
    assert [e][1..] == [] && [e][..1] == [e];
  }

  /** A command line that is written out is read as it was meant: every option with its own
      argument and nothing else, every mistake with its code, and all other words left over,
      in their order. */
  lemma {:induction false} WrittenScans(cfg: Config, items: seq<Item>, end: End)
    requires GoodLine(cfg, items, end)
    ensures Scan(cfg, Args(items, end), "") == Scanned(Events(cfg, items, end), OptionArgs(items, end), Words(items, end))
    decreases |items|
  {
    hide Scan, GoodItem, ItemArgs, ItemEvents;
    if items == [] {
      EndScan(cfg, end);
    } else {
      WrittenScans(cfg, items[1..], end);
      ItemScan(cfg, items[0], Args(items[1..], end));
      OwnWord(items[0]);
    }
  }

  lemma OwnWord(item: Item)
    ensures item.Word? ==> ItemArgs(item) == [item.text]
  {
  }

  // ----- every command line is one -----

  /** C strings: no zero bytes. */
  predicate NoZeros(args: seq<string>) {
    forall i :: 0 <= i < |args| ==> '\0' !in args[i]
  }

  lemma SomeKind(shorts: string, c: char) returns (kind: Kind)
    requires !Unknown(shorts, c)
    ensures Declared(shorts, c, kind)
  {
    var t := IndexOf(shorts, c);
    assert shorts[..|shorts|] == shorts;
    kind := KindAt(shorts, t);
  }

  /** The leading options without argument of a cluster. */
  lemma LeadingFlags(cfg: Config, text: string) returns (flags: string, rest: string)
    requires '\0' !in text
    ensures text == flags + rest && GoodFlags(cfg, flags)
    ensures rest != "" ==> Declared(cfg.shorts, rest[0], Required) || Declared(cfg.shorts, rest[0], Optional)
    decreases |text|
  {
    hide Declared;
    if text == "" {
      return "", "";
    }
    var kind := Plain;
    if !Unknown(cfg.shorts, text[0]) {
      kind := SomeKind(cfg.shorts, text[0]);
    }
    if kind != Plain {
      return "", text;
    }
    flags, rest := LeadingFlags(cfg, text[1..]);
    flags := [text[0]] + flags;
    assert text == [text[0]] + text[1..];
  }

  lemma ShortItem(cfg: Config, args: seq<string>, text: string) returns (item: Item, missing: Option<End>)
    requires args != [] && NoZeros(args) && args[0] == "-" + text && ShortText(cfg, text)
    ensures if missing.Some? then GoodEnd(cfg, missing.value) && EndArgs(missing.value) == args
            else GoodItem(cfg, item) && ItemArgs(item) <= args
  {
    hide Declared, GoodFlags;
    assert '\0' !in text by {
      assert '\0' !in args[0] && args[0][1..] == text;
    }
    var flags, rest := LeadingFlags(cfg, text);
    item, missing := Cluster(flags, NoTail), None;
    if rest == "" {
      assert flags + "" == flags;
    } else {
      var c := rest[0];
      assert rest == [c] + rest[1..] && c in text by { assert text[|flags|] == c; }
      if |rest| > 1 {
        item := Cluster(flags, Attached(c, rest[1..]));
      } else {
        assert rest == [c];
        if !Declared(cfg.shorts, c, Required) {
          item := Cluster(flags, Bare(c));
        } else if |args| == 1 {
          missing := Some(MissingShort(flags, c));
        } else {
          item := Cluster(flags, Separate(c, args[1]));
          assert ItemArgs(item) == args[..2];
        }
      }
    }
  }

  lemma EqSplit(text: string) returns (typed: string, eq: Option<string>)
    ensures text == typed + EqText(eq) && '=' !in typed
  {
    var n := IndexOf(text, '=');
    typed, eq := text[..n], if n < |text| then Some(text[n + 1..]) else None;
    assert n < |text| ==> text == text[..n] + "=" + text[n + 1..];
  }

  /** Nothing, several, or one option is meant. */
  lemma SomeMeaning(opts: seq<LongOption>, typed: string) returns (i: nat)
    ensures MeansNothing(opts, typed) || MeansSeveral(opts, typed) || (i < |opts| && Means(opts, typed, i))
  {
    i := 0;
    if e: nat :| e < |opts| && Exactly(opts, typed, e) {
      i := FirstOfName(opts, typed, e);
    } else if j: nat :| j < |opts| && Fits(opts, typed, j) {
      i := j;
      if k: nat :| k < |opts| && k != j && Fits(opts, typed, k) {
        var a, b := if j < k then j else k, if j < k then k else j;
        assert Fits(opts, typed, a) && Fits(opts, typed, b);
      }
    }
  }

  lemma {:induction false} FirstOfName(opts: seq<LongOption>, typed: string, e: nat) returns (i: nat)
    requires e < |opts| && Exactly(opts, typed, e)
    ensures i < |opts| && Means(opts, typed, i)
    decreases e
  {
    i := e;
    if d: nat :| d < e && Exactly(opts, typed, d) {
      i := FirstOfName(opts, typed, d);
    }
  }

  lemma LongItem(cfg: Config, args: seq<string>, text: string) returns (item: Item, missing: Option<End>)
    requires args != [] && cfg.longs.Some? && args[0] == "--" + text && text != ""
    ensures if missing.Some? then GoodEnd(cfg, missing.value) && EndArgs(missing.value) == args
            else GoodItem(cfg, item) && ItemArgs(item) <= args
  {
    hide Means, MeansNothing, MeansSeveral;
    var typed, eq := EqSplit(text);
    var i := SomeMeaning(cfg.longs.value, typed);
    item, missing := BadLong(typed, eq), None;
    if !(MeansNothing(cfg.longs.value, typed) || MeansSeveral(cfg.longs.value, typed)) {
      var has := cfg.longs.value[i].hasArg;
      if eq.Some? && has == 0 {
        item := ExtraArg(i, typed, eq.value);
      } else if eq.None? && has == 1 && |args| == 1 {
        missing := Some(MissingLong(i, typed));
        assert typed + EqText(None) == typed;
      } else if eq.None? && has == 1 {
        item := Long(i, typed, None, Some(args[1]));
        assert ItemArgs(item) == args[..2];
      } else {
        item := Long(i, typed, eq, None);
      }
    }
  }

  lemma FirstItem(cfg: Config, args: seq<string>) returns (item: Item, end: Option<End>)
    requires args != [] && NoZeros(args)
    ensures if end.Some? then GoodEnd(cfg, end.value) && EndArgs(end.value) == args
            else GoodItem(cfg, item) && ItemArgs(item) <= args
  {
    hide GoodFlags, GoodTail, Means;
    var e := args[0];
    item, end := Word(e), None;
    if e == "--" {
      end := Some(Terminator(args[1..]));
    } else if e != "" && e[0] == '-' && |e| > 1 {
      assert '\0' !in e;
      if cfg.longs.Some? && e[1] == '-' {
        assert e == "--" + e[2..];
        item, end := LongItem(cfg, args, e[2..]);
      } else {
        assert e == "-" + e[1..];
        item, end := ShortItem(cfg, args, e[1..]);
      }
    }
  }

  /** Every list of arguments is such a command line, written out. */
  lemma {:induction false} EveryLine(cfg: Config, args: seq<string>) returns (items: seq<Item>, end: End)
    requires NoZeros(args)
    ensures GoodLine(cfg, items, end) && Args(items, end) == args
    decreases |args|
  {
    hide GoodItem, GoodEnd, ItemArgs, EndArgs;
    items, end := [], Nothing;
    if args == [] {
      NothingWritten(cfg);
    } else {
      var item, last := FirstItem(cfg, args);
      if last.Some? {
        end := last.value;
      } else {
        SomethingWritten(item);
        var n := |ItemArgs(item)|;
        assert args == ItemArgs(item) + args[n..] && NoZeros(args[n..]);
        items, end := EveryLine(cfg, args[n..]);
        items := [item] + items;
      }
    }
  }

  lemma NothingWritten(cfg: Config)
    ensures GoodEnd(cfg, Nothing) && EndArgs(Nothing) == []
  {
  }

  lemma SomethingWritten(item: Item)
    ensures ItemArgs(item) != []
  {
  }

  /** The scanner called until it is done on a command line that is written out. */
  method RunWritten(g: Getopt, cfg: Config, argv: array<string>, ghost items: seq<Item>, ghost end: End) returns (events: seq<Event>)
    requires Supported(cfg) && argv.Length >= 1 && g.optind <= 1 && (g.optind == 0 || !g.initialized)
    requires GoodLine(cfg, items, end) && argv[1..] == Args(items, end)
    modifies g, argv
    ensures events == Events(cfg, items, end)
    ensures argv[..] == [old(argv[0])] + OptionArgs(items, end) + Words(items, end) && g.optind == 1 + |OptionArgs(items, end)|
  {
    hide Scan, Supported, Args, Events, OptionArgs, Words, GoodLine;
    WrittenScans(cfg, items, end);
    events := Run(g, cfg, argv);
  }
}
