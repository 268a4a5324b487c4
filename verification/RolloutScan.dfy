/** The report's counters over the calls of the turns read. */
module RolloutScan {
  import opened Rollout
  import DirectArgv

  const EXEC: string := "exec_command"
  const READ: string := "read_file"

  /** The counters of the exec calls. */
  datatype Commands = Commands(total: nat, shell: nat, direct: nat, multiline: nat, cd: nat, sleep: nat)

  datatype Counters = Counters(
    tools: map<string, nat>,
    repeats: nat,
    readWindowed: nat,
    readWhole: nat,
    exec: Commands,
    limits: map<int, nat>,
    sizes: map<string, seq<nat>>,
    excerpts: map<string, nat>,
    errors: map<string, nat>,
    timeouts: nat)

  const ZERO: Counters := Counters(map[], 0, 0, 0, Commands(0, 0, 0, 0, 0, 0), map[], map[], map[], map[], 0)

  /** A `Counter`'s entry. */
  function Entry<K>(counter: map<K, nat>, key: K): nat {
    if key in counter then counter[key] else 0
  }

  /** A `defaultdict(list)`'s entry. */
  function Listed(lists: map<string, seq<nat>>, tool: string): seq<nat> {
    if tool in lists then lists[tool] else []
  }

  // ---- the counts by themselves ----

  /** What is counted tool by tool. */
  datatype Kind = Made | Excerpted | Erred

  datatype What =
    | By(kind: Kind, tool: string)
    | Windowed | Whole | Limit(n: int)
    | Direct | Shell | Multiline | Cd | Sleep
    | Timeout

  /** `"\\n" in cmd` */
  predicate ManyLines(cmd: string) {
    '\n' in cmd
  }

  predicate StandsAt(s: string, i: nat, part: string) {
    i + |part| <= |s| && s[i..i + |part|] == part
  }

  predicate Contains(s: string, part: string) {
    exists i :: 0 <= i <= |s| && StandsAt(s, i, part)
  }

  /** A command that changes directory before it does something else. */
  predicate ChangesDir(cmd: string) {
    "cd " <= cmd && (Contains(cmd, "&&") || Contains(cmd, ";"))
  }

  predicate Is(call: Call, what: What) {
    match what
    case By(Made, tool) => call.tool == tool
    case By(Excerpted, tool) => call.tool == tool && call.slot.Sized? && call.slot.sizing.excerpt
    case By(Erred, tool) => call.tool == tool && call.slot.Sized? && call.slot.sizing.error
    case Windowed => call.tool == READ && call.args.windowed
    case Whole => call.tool == READ && !call.args.windowed
    case Direct => call.tool == EXEC && DirectArgv.DirectArgv(call.args.command)
    case Shell => call.tool == EXEC && !DirectArgv.DirectArgv(call.args.command)
    case Multiline => call.tool == EXEC && ManyLines(call.args.command)
    case Cd => call.tool == EXEC && ChangesDir(call.args.command)
    case Sleep => call.tool == EXEC && call.args.command != "" && call.args.sleeps
    case Limit(n) => call.tool == READ && call.args.windowed && call.args.limit == n
    case Timeout => call.slot.Sized? && call.slot.sizing.timeout
  }

  function Count(calls: seq<Call>, what: What): nat {
    if calls == [] then 0
    else Count(calls[..|calls| - 1], what) + if Is(calls[|calls| - 1], what) then 1 else 0
  }

  /** The lengths of one tool's results, in call order. */
  function Lengths(calls: seq<Call>, tool: string): seq<nat> {
    if calls == [] then []
    else
      var call := calls[|calls| - 1];
      Lengths(calls[..|calls| - 1], tool)
      + if call.slot.Sized? && call.tool == tool then [call.slot.sizing.length] else []
  }

  function Keys(calls: seq<Call>): set<(string, string)> {
    if calls == [] then {} else Keys(calls[..|calls| - 1]) + {calls[|calls| - 1].key}
  }

  /** The calls of a turn beyond the first of their key. */
  function Repeats(calls: seq<Call>): int {
    |calls| - |Keys(calls)|
  }

  function RepeatsAll(turns: seq<Turn>): int {
    if turns == [] then 0 else RepeatsAll(turns[..|turns| - 1]) + Repeats(turns[|turns| - 1].calls)
  }

  ghost predicate CounterRaised(m0: map<string, nat>, calls: seq<Call>, m: map<string, nat>, kind: Kind) {
    forall tool :: Entry(m, tool) == Entry(m0, tool) + Count(calls, By(kind, tool))
  }

  ghost predicate SizesRaised(l0: map<string, seq<nat>>, calls: seq<Call>, l: map<string, seq<nat>>) {
    forall tool :: Listed(l, tool) == Listed(l0, tool) + Lengths(calls, tool)
  }

  ghost predicate LimitsRaised(m0: map<int, nat>, calls: seq<Call>, m: map<int, nat>) {
    forall n :: Entry(m, n) == Entry(m0, n) + Count(calls, Limit(n))
  }

  ghost predicate CommandsRaised(c0: Commands, calls: seq<Call>, c: Commands) {
    c.total == c0.total + Count(calls, By(Made, EXEC))
    && c.direct == c0.direct + Count(calls, Direct) && c.shell == c0.shell + Count(calls, Shell)
    && c.multiline == c0.multiline + Count(calls, Multiline) && c.cd == c0.cd + Count(calls, Cd)
    && c.sleep == c0.sleep + Count(calls, Sleep)
  }

  /** The counters are raised by the given calls. */
  ghost predicate Raised(c0: Counters, calls: seq<Call>, c: Counters) {
    CounterRaised(c0.tools, calls, c.tools, Made)
    && CounterRaised(c0.excerpts, calls, c.excerpts, Excerpted)
    && CounterRaised(c0.errors, calls, c.errors, Erred)
    && SizesRaised(c0.sizes, calls, c.sizes)
    && LimitsRaised(c0.limits, calls, c.limits)
    && c.readWindowed == c0.readWindowed + Count(calls, Windowed)
    && c.readWhole == c0.readWhole + Count(calls, Whole)
    && CommandsRaised(c0.exec, calls, c.exec)
    && c.timeouts == c0.timeouts + Count(calls, Timeout)
  }

  // ---- the loops ----

  function One(call: Call, what: What): nat {
    if Is(call, what) then 1 else 0
  }

  /** `counter[tool] += 1`, if the call counts. */
  method RaiseFor(counter: map<string, nat>, call: Call, kind: Kind) returns (raised: map<string, nat>)
    ensures CounterRaised(counter, [call], raised, kind)
  {
    hide Count;
    CountsOne(call);
    raised := counter;
    if Is(call, By(kind, call.tool)) { raised := counter[call.tool := Entry(counter, call.tool) + 1]; }
  }

  method ListFor(lists: map<string, seq<nat>>, call: Call) returns (listed: map<string, seq<nat>>)
    ensures SizesRaised(lists, [call], listed)
  {
    listed := lists;
    if call.slot.Sized? { listed := lists[call.tool := Listed(lists, call.tool) + [call.slot.sizing.length]]; }
    forall tool
      ensures Lengths([call], tool)
              == if call.slot.Sized? && call.tool == tool then [call.slot.sizing.length] else []
    {
      assert [call][..0] == [];
    }
  }

  /** `window_limits[limit] += 1`, if the call is a read with a window. */
  method LimitFor(limits: map<int, nat>, call: Call) returns (raised: map<int, nat>)
    ensures LimitsRaised(limits, [call], raised)
  {
    hide Count;
    CountsOne(call);
    raised := limits;
    if call.tool == READ && call.args.windowed {
      raised := limits[call.args.limit := Entry(limits, call.args.limit) + 1];
    }
  }

  /** The counters of one exec call. */
  method ScanCommand(call: Call, c0: Commands) returns (c: Commands)
    requires call.tool == EXEC
    ensures CommandsRaised(c0, [call], c)
  {
    hide Count, DirectArgv.DirectArgv, Contains;
    CountsOne(call);
    var cmd := call.args.command;
    c := c0.(total := c0.total + 1);
    if DirectArgv.DirectArgv(cmd) {
      c := c.(direct := c.direct + 1);
    } else {
      c := c.(shell := c.shell + 1);
    }
    if cmd != "" {
      if '\n' in cmd { c := c.(multiline := c.multiline + 1); }
      if "cd " <= cmd && (Contains(cmd, "&&") || Contains(cmd, ";")) { c := c.(cd := c.cd + 1); }
      if call.args.sleeps { c := c.(sleep := c.sleep + 1); }
    }
  }

  lemma {:induction false} NoCommand(call: Call, c: Commands)
    requires call.tool != EXEC
    ensures CommandsRaised(c, [call], c)
  {
    hide Count;
    CountsOne(call);
  }

  method ScanCall(call: Call, c0: Counters) returns (c: Counters)
    ensures Raised(c0, [call], c) && c.repeats == c0.repeats
  {
    hide Count, CounterRaised, SizesRaised, LimitsRaised, CommandsRaised, DirectArgv.DirectArgv, ChangesDir, ManyLines;
    CountsOne(call);
    var tools := RaiseFor(c0.tools, call, Made);
    c := c0.(tools := tools);
    if call.tool != EXEC { NoCommand(call, c.exec); }
    if call.tool == READ {
      if call.args.windowed {
        c := c.(readWindowed := c.readWindowed + 1);
      } else {
        c := c.(readWhole := c.readWhole + 1);
      }
    } else if call.tool == EXEC {
      var exec := ScanCommand(call, c.exec);
      c := c.(exec := exec);
    }
    var limits := LimitFor(c.limits, call);
    var sizes := ListFor(c.sizes, call);
    var excerpts := RaiseFor(c.excerpts, call, Excerpted);
    var errors := RaiseFor(c.errors, call, Erred);
    c := c.(limits := limits, sizes := sizes, excerpts := excerpts, errors := errors);
    if call.slot.Sized? && call.slot.sizing.timeout { c := c.(timeouts := c.timeouts + 1); }
  }

  lemma {:induction false} CountsOne(call: Call)
    ensures forall what :: Count([call], what) == One(call, what)
  {
    hide Is;
    assert [] + [call] == [call];
    forall what ensures Count([call], what) == One(call, what) { CountNext([], call, what); }
  }

  method ScanTurn(t: Turn, c0: Counters) returns (c: Counters)
    ensures Raised(c0, t.calls, c) && c.repeats == c0.repeats + Repeats(t.calls)
  {
    hide Is, Count, Repeats, Raised;
    c := c0;
    var seen: map<(string, string), nat> := map[];
    NothingRaised(c0);
    assert t.calls[..0] == [];
    for k := 0 to |t.calls|
      invariant Raised(c0, t.calls[..k], c) && c.repeats == c0.repeats + Repeats(t.calls[..k])
      invariant seen.Keys == Keys(t.calls[..k]) && forall key :: key in seen ==> seen[key] >= 1
    {
      var call := t.calls[k];
      assert t.calls[..k + 1] == t.calls[..k] + [call];
      RepeatsNext(t.calls[..k], call);
      var next := ScanCall(call, c);
      RaisedTwice(c0, t.calls[..k], c, [call], next);
      c := next;
      seen := seen[call.key := (if call.key in seen then seen[call.key] else 0) + 1];
      if seen[call.key] > 1 {
        c := c.(repeats := c.repeats + 1);
        RepeatsApart(c0, t.calls[..k + 1], next, c);
      }
    }
    assert t.calls[..|t.calls|] == t.calls;
  }

  method ScanTurns(turns: seq<Turn>) returns (c: Counters)
    ensures Raised(ZERO, CallsOf(turns), c) && c.repeats == RepeatsAll(turns)
  {
    hide Is, Count, Repeats, Raised;
    c := ZERO;
    NothingRaised(ZERO);
    assert turns[..0] == [];
    for k := 0 to |turns|
      invariant Raised(ZERO, CallsOf(turns[..k]), c) && c.repeats == RepeatsAll(turns[..k])
    {
      assert turns[..k + 1][..k] == turns[..k];
      var next := ScanTurn(turns[k], c);
      RaisedTwice(ZERO, CallsOf(turns[..k]), c, turns[k].calls, next);
      c := next;
    }
    assert turns[..|turns|] == turns;
  }

  function CallsOf(turns: seq<Turn>): seq<Call> {
    if turns == [] then [] else CallsOf(turns[..|turns| - 1]) + turns[|turns| - 1].calls
  }

  lemma {:induction false} CountNext(calls: seq<Call>, call: Call, what: What)
    ensures Count(calls + [call], what) == Count(calls, what) + if Is(call, what) then 1 else 0
  {
  }

  lemma {:induction false} CountAdds(a: seq<Call>, b: seq<Call>, what: What)
    ensures Count(a + b, what) == Count(a, what) + Count(b, what)
    decreases |b|
  {
    if b == [] {
      assert a + b == a;
    } else {
      assert (a + b)[..|a + b| - 1] == a + b[..|b| - 1];
      CountAdds(a, b[..|b| - 1], what);
    }
  }

  lemma {:induction false} LengthsAdd(a: seq<Call>, b: seq<Call>, tool: string)
    ensures Lengths(a + b, tool) == Lengths(a, tool) + Lengths(b, tool)
    decreases |b|
  {
    if b == [] {
      assert a + b == a;
    } else {
      assert (a + b)[..|a + b| - 1] == a + b[..|b| - 1];
      LengthsAdd(a, b[..|b| - 1], tool);
    }
  }

  lemma {:induction false} NothingRaised(c: Counters)
    ensures Raised(c, [], c) && Repeats([]) == 0 && Keys([]) == {}
  {
  }

  lemma {:induction false} CounterTwice(m0: map<string, nat>, a: seq<Call>, m1: map<string, nat>, b: seq<Call>,
                                        m2: map<string, nat>, kind: Kind)
    requires CounterRaised(m0, a, m1, kind) && CounterRaised(m1, b, m2, kind)
    ensures CounterRaised(m0, a + b, m2, kind)
  {
    hide Is, Count;
    forall tool ensures Entry(m2, tool) == Entry(m0, tool) + Count(a + b, By(kind, tool)) {
      CountAdds(a, b, By(kind, tool));
      assert Entry(m1, tool) == Entry(m0, tool) + Count(a, By(kind, tool));
    }
  }

  lemma {:induction false} LimitsTwice(m0: map<int, nat>, a: seq<Call>, m1: map<int, nat>, b: seq<Call>,
                                       m2: map<int, nat>)
    requires LimitsRaised(m0, a, m1) && LimitsRaised(m1, b, m2)
    ensures LimitsRaised(m0, a + b, m2)
  {
    hide Is, Count;
    forall n ensures Entry(m2, n) == Entry(m0, n) + Count(a + b, Limit(n)) {
      CountAdds(a, b, Limit(n));
      assert Entry(m1, n) == Entry(m0, n) + Count(a, Limit(n));
    }
  }

  lemma {:induction false} SizesTwice(l0: map<string, seq<nat>>, a: seq<Call>, l1: map<string, seq<nat>>, b: seq<Call>,
                                      l2: map<string, seq<nat>>)
    requires SizesRaised(l0, a, l1) && SizesRaised(l1, b, l2)
    ensures SizesRaised(l0, a + b, l2)
  {
    hide Lengths, Listed;
    forall tool ensures Listed(l2, tool) == Listed(l0, tool) + Lengths(a + b, tool) {
      LengthsAdd(a, b, tool);
      InARow(Listed(l0, tool), Lengths(a, tool), Lengths(b, tool));
      assert Listed(l1, tool) == Listed(l0, tool) + Lengths(a, tool);
    }
  }

  lemma {:induction false} InARow(x: seq<nat>, y: seq<nat>, z: seq<nat>)
    ensures (x + y) + z == x + (y + z)
  {
  }

  lemma {:induction false} CommandsTwice(c0: Commands, a: seq<Call>, c1: Commands, b: seq<Call>, c2: Commands)
    requires CommandsRaised(c0, a, c1) && CommandsRaised(c1, b, c2)
    ensures CommandsRaised(c0, a + b, c2)
  {
    hide Is, Count;
    forall what ensures Count(a + b, what) == Count(a, what) + Count(b, what) { CountAdds(a, b, what); }
  }

  lemma {:induction false} RaisedTwice(c0: Counters, a: seq<Call>, c1: Counters, b: seq<Call>, c2: Counters)
    requires Raised(c0, a, c1) && Raised(c1, b, c2)
    ensures Raised(c0, a + b, c2)
  {
    hide Is, Count, CounterRaised, SizesRaised, LimitsRaised, CommandsRaised;
    CounterTwice(c0.tools, a, c1.tools, b, c2.tools, Made);
    CounterTwice(c0.excerpts, a, c1.excerpts, b, c2.excerpts, Excerpted);
    CounterTwice(c0.errors, a, c1.errors, b, c2.errors, Erred);
    SizesTwice(c0.sizes, a, c1.sizes, b, c2.sizes);
    LimitsTwice(c0.limits, a, c1.limits, b, c2.limits);
    CommandsTwice(c0.exec, a, c1.exec, b, c2.exec);
    forall what ensures Count(a + b, what) == Count(a, what) + Count(b, what) { CountAdds(a, b, what); }
  }

  lemma {:induction false} RepeatsApart(c0: Counters, calls: seq<Call>, c: Counters, more: Counters)
    requires Raised(c0, calls, c) && more == c.(repeats := more.repeats)
    ensures Raised(c0, calls, more)
  {
    hide CounterRaised, SizesRaised, LimitsRaised, CommandsRaised, Count;
  }

  lemma {:induction false} RepeatsNext(calls: seq<Call>, call: Call)
    ensures Keys(calls + [call]) == Keys(calls) + {call.key}
    ensures Repeats(calls + [call]) == Repeats(calls) + if call.key in Keys(calls) then 1 else 0
  {
  }

  lemma {:induction false} KeysAreKeys(calls: seq<Call>, key: (string, string))
    ensures key in Keys(calls) <==> exists i :: 0 <= i < |calls| && calls[i].key == key
  {
    if calls != [] {
      var front := calls[..|calls| - 1];
      KeysAreKeys(front, key);
      if key in Keys(front) {
        var i :| 0 <= i < |front| && front[i].key == key;
        assert calls[i].key == key;
      }
    }
  }

  // ---- what the counters add up to ----

  lemma {:induction false} KindsAddUp(calls: seq<Call>)
    ensures Count(calls, Direct) + Count(calls, Shell) == Count(calls, By(Made, EXEC))
    ensures Count(calls, Windowed) + Count(calls, Whole) == Count(calls, By(Made, READ))
  {
    if calls != [] { KindsAddUp(calls[..|calls| - 1]); }
  }

  /** Over any corpus, the direct and the shell commands are the exec calls the tool counter shows, and the windowed and
      the whole reads are its reads. */
  lemma {:induction false} CountersAgree(turns: seq<Turn>, c: Counters)
    requires Raised(ZERO, CallsOf(turns), c)
    ensures c.exec.direct + c.exec.shell == c.exec.total == Entry(c.tools, EXEC)
    ensures c.readWindowed + c.readWhole == Entry(c.tools, READ)
  {
    hide Is, Count;
    KindsAddUp(CallsOf(turns));
    assert Entry(c.tools, READ) == Entry(ZERO.tools, READ) + Count(CallsOf(turns), By(Made, READ));
  }

  lemma {:induction false} NotInDirect(cmd: string, part: string)
    requires DirectArgv.DirectArgv(cmd) && part != "" && !DirectArgv.IsSafe(part[0]) && part[0] != ' '
    ensures !Contains(cmd, part)
  {
    hide DirectArgv.DirectArgv, DirectArgv.IsSafe;
    forall i | 0 <= i <= |cmd| && StandsAt(cmd, i, part) ensures false {
      assert cmd[i..i + |part|][0] == cmd[i];
      DirectArgv.DirectCharacters(cmd, i);
    }
  }

  /** A command of several lines, or one that changes directory first, is not direct. */
  lemma {:induction false} CompoundIsShell(call: Call)
    ensures Is(call, Multiline) || Is(call, Cd) ==> Is(call, Shell)
  {
    var cmd := call.args.command;
    if DirectArgv.DirectArgv(cmd) {
      hide DirectArgv.DirectArgv, Contains;
      NotInDirect(cmd, "&&");
      NotInDirect(cmd, ";");
      forall i | 0 <= i < |cmd| ensures cmd[i] != '\n' { DirectArgv.DirectCharacters(cmd, i); }
    }
  }

  lemma {:induction false} FewerThanShell(calls: seq<Call>)
    ensures Count(calls, Multiline) <= Count(calls, Shell) && Count(calls, Cd) <= Count(calls, Shell)
  {
    hide Is;
    if calls != [] {
      FewerThanShell(calls[..|calls| - 1]);
      CompoundIsShell(calls[|calls| - 1]);
    }
  }

  /** Over any corpus, commands of several lines and commands that change directory first all went through a shell. */
  lemma {:induction false} CompoundCommandsNeedAShell(turns: seq<Turn>, c: Counters)
    requires Raised(ZERO, CallsOf(turns), c)
    ensures c.exec.multiline <= c.exec.shell && c.exec.cd <= c.exec.shell
  {
    hide Is, Count;
    FewerThanShell(CallsOf(turns));
  }

  predicate DistinctKeys(calls: seq<Call>) {
    forall i, j :: 0 <= i < j < |calls| ==> calls[i].key != calls[j].key
  }

  lemma {:induction false} DistinctNext(calls: seq<Call>, call: Call)
    ensures DistinctKeys(calls + [call]) <==> DistinctKeys(calls) && call.key !in Keys(calls)
  {
    var more := calls + [call];
    KeysAreKeys(calls, call.key);
    if DistinctKeys(more) {
      forall i, j | 0 <= i < j < |calls| ensures calls[i].key != calls[j].key { assert more[i].key != more[j].key; }
      forall i | 0 <= i < |calls| ensures calls[i].key != call.key { assert more[i].key != more[|calls|].key; }
    }
  }

  lemma {:induction false} NoCallsRepeat()
    ensures Repeats([]) == 0 && DistinctKeys([])
  {
  }

  /** A turn repeats nothing exactly when its calls have distinct keys. */
  lemma {:induction false} NoRepeats(calls: seq<Call>)
    ensures Repeats(calls) >= 0
    ensures Repeats(calls) == 0 <==> DistinctKeys(calls)
  {
    hide DistinctKeys, Repeats, Keys;
    if calls == [] {
      NoCallsRepeat();
    } else {
      var front, last := calls[..|calls| - 1], calls[|calls| - 1];
      NoRepeats(front);
      RepeatsNext(front, last);
      DistinctNext(front, last);
      assert calls == front + [last];
    }
  }
}
