/**
  The Mynewt bot (bot/mynewt.py): the newt commands that build and flash the
  tester firmware for one IUT configuration, the syscfg overlay argument,
  and run_tests' fan-out over the IUT configurations — which test cases each
  configuration runs, and how the per-configuration status counts, results
  and regressions are merged into the bot's report.

  The PTS proxy, the test runner, the subset filter and the description
  lookup live outside this file; run_tests takes them as functions.
*/
module MynewtBot {
  import opened Wrappers

  /** The exceptions run_tests lets escape. */
  datatype BotError = KeyError | UnboundLocalError

  // ---------------------------------------------------------------------
  // _validate_pair

  /** What len() makes of a Python object: its length, or a TypeError when it has none. */
  datatype PyObject = Sized(length: nat) | Unsized

  /**
    _validate_pair: whether len(ob) is 2. The TypeError of an object without
    a length and the ValueError raised for any other length are both caught
    by the bare except and become False.
  */
  function ValidatePair(ob: PyObject): (ok: bool)
    ensures ok <==> ob == Sized(2)
  {
    match ob
    case Unsized => false
    case Sized(n) => if n != 2 then false else true
  }

  // ---------------------------------------------------------------------
  // autopts2board

  /** The autopts2board table: the bot's board name to the Mynewt BSP name. */
  const Autopts2Board: map<Option<string>, Option<string>> :=
    map[None := None, Some("nrf52") := Some("nordic_pca10056")]

  /** autopts2board[board], which raises KeyError for a board the table does not list. */
  function MynewtBoard(board: Option<string>): (r: Result<Option<string>, BotError>)
    ensures r.Success? <==> board == None || board == Some("nrf52")
    ensures r.Success? ==> (r.value.Some? <==> board.Some?)
    ensures r.Success? && board.Some? ==> r.value == Some("nordic_pca10056")
    ensures r.Failure? ==> r.error == KeyError
  {
    if board in Autopts2Board then Success(Autopts2Board[board]) else Failure(KeyError)
  }

  /** '{}'.format(board): Python writes None as "None". */
  function BoardText(board: Option<string>): string {
    if board.None? then "None" else board.value
  }

  // ---------------------------------------------------------------------
  // build_and_flash

  /** The configuration overlay: its (key, value) items in dictionary order. */
  type Overlay = seq<(string, string)>

  /** One check_call of build_and_flash, run in the project directory. */
  datatype Command =
    | Remove(path: string)                        // rm -rf <path>
    | TargetCreate(target: string)                // newt target create <target>
    | TargetSet(target: string, setting: string)  // newt target set <target> <setting>
    | Build(target: string)                       // newt build <target>
    | CreateImage(target: string)                 // newt create-image <target> 0.0.0
    | Load(target: string)                        // newt load <target>

  /** The phase a command belongs to: remove, target create, target set, build, create-image, load. */
  function Phase(c: Command): nat {
    match c
    case Remove(_) => 0
    case TargetCreate(_) => 1
    case TargetSet(_, _) => 2
    case Build(_) => 3
    case CreateImage(_) => 4
    case Load(_) => 5
  }

  const Tester := "bttester"

  function BootTarget(board: string): string {
    board + "_boot"
  }

  /** The setting that puts a target on the board's BSP. */
  function BspSetting(board: string): string {
    "bsp=@apache-mynewt-core/hw/bsp/" + board
  }

  const BootApp := "app=@apache-mynewt-core/apps/boot"
  const TesterApp := "app=@apache-mynewt-nimble/apps/bttester"

  /** '{}={}'.format(k, v) for one overlay item. */
  function Setting(kv: (string, string)): string {
    kv.0 + "=" + kv.1
  }

  /** ':'.join of the overlay's items written k=v. */
  function SyscfgArg(overlay: Overlay): string
    decreases |overlay|
  {
    if |overlay| == 0 then ""
    else if |overlay| == 1 then Setting(overlay[0])
    else Setting(overlay[0]) + ":" + SyscfgArg(overlay[1..])
  }

  /** A `newt target set bttester syscfg=...` command. */
  predicate IsSyscfg(c: Command) {
    c.TargetSet? && c.target == Tester && |c.setting| >= 7 && c.setting[..7] == "syscfg="
  }

  /** The `newt target set` commands: BSP and app of both targets, then the overlay's syscfg if one is given. */
  function TargetSettings(board: string, overlay: Option<Overlay>): (settings: seq<Command>)
    ensures |settings| == (if overlay.Some? then 5 else 4)
    ensures forall k :: 0 <= k < |settings| ==>
      settings[k].TargetSet? && (settings[k].target == BootTarget(board) || settings[k].target == Tester)
  {
    var boot := BootTarget(board);
    [TargetSet(boot, BspSetting(board)),
     TargetSet(boot, BootApp),
     TargetSet(Tester, BspSetting(board)),
     TargetSet(Tester, TesterApp)]
    + (if overlay.Some? then [TargetSet(Tester, "syscfg=" + SyscfgArg(overlay.value))] else [])
  }

  /**
    build_and_flash: the commands it runs for `board`, in order. The board
    text is '{}'.format of the board, so a missing board is written "None".
  */
  function BuildAndFlash(board: string, overlay: Option<Overlay>): (calls: seq<Command>)
    ensures |calls| == (if overlay.Some? then 16 else 15)
  {
    var boot := BootTarget(board);
    [Remove("bin/"), Remove("targets/" + boot + "/"), Remove("targets/bttester/")]
    + [TargetCreate(boot), TargetCreate(Tester)]
    + TargetSettings(board, overlay)
    + [Build(boot), Build(Tester)]
    + [CreateImage(boot), CreateImage(Tester)]
    + [Load(boot), Load(Tester)]
  }

  predicate PhasesInOrder(calls: seq<Command>) {
    forall i, j :: 0 <= i < j < |calls| ==> Phase(calls[i]) <= Phase(calls[j])
  }

  /** Commands in phase order, none of them past phase `p`. */
  predicate InOrderUpTo(calls: seq<Command>, p: nat) {
    PhasesInOrder(calls) && forall i :: 0 <= i < |calls| ==> Phase(calls[i]) <= p
  }

  predicate AllInPhase(calls: seq<Command>, p: nat) {
    forall i :: 0 <= i < |calls| ==> Phase(calls[i]) == p
  }

  lemma ThenPhase(calls: seq<Command>, p: nat, block: seq<Command>, q: nat)
    requires InOrderUpTo(calls, p) && AllInPhase(block, q) && p <= q
    ensures InOrderUpTo(calls + block, q)
  {
  }

  /** build_and_flash runs remove, target create, target set, build, create-image and load, in that order. */
  lemma BuildAndFlashInOrder(board: string, overlay: Option<Overlay>)
    ensures PhasesInOrder(BuildAndFlash(board, overlay))
  {
    var boot := BootTarget(board);
    var c0 := [Remove("bin/"), Remove("targets/" + boot + "/"), Remove("targets/bttester/")];
    var c1 := c0 + [TargetCreate(boot), TargetCreate(Tester)];
    var c2 := c1 + TargetSettings(board, overlay);
    var c3 := c2 + [Build(boot), Build(Tester)];
    var c4 := c3 + [CreateImage(boot), CreateImage(Tester)];
    assert InOrderUpTo(c0, 0);
    ThenPhase(c0, 0, [TargetCreate(boot), TargetCreate(Tester)], 1);
    ThenPhase(c1, 1, TargetSettings(board, overlay), 2);
    ThenPhase(c2, 2, [Build(boot), Build(Tester)], 3);
    ThenPhase(c3, 3, [CreateImage(boot), CreateImage(Tester)], 4);
    ThenPhase(c4, 4, [Load(boot), Load(Tester)], 5);
  }

  /** Only the fifth target setting, present exactly with an overlay, is a syscfg command. */
  lemma SettingsSyscfg(board: string, overlay: Option<Overlay>, i: nat)
    requires i < |TargetSettings(board, overlay)| && IsSyscfg(TargetSettings(board, overlay)[i])
    ensures i == 4 && overlay.Some?
    ensures TargetSettings(board, overlay)[i] == TargetSet(Tester, "syscfg=" + SyscfgArg(overlay.value))
  {
    var settings := TargetSettings(board, overlay);
    assert forall k :: 0 <= k < 4 ==> settings[k].setting[0] != 's';
  }

  /**
    The syscfg command is issued exactly when an overlay is given, and then
    it carries the overlay's k=v:k=v text.
  */
  lemma BuildAndFlashSyscfg(board: string, overlay: Option<Overlay>)
    ensures (exists i :: 0 <= i < |BuildAndFlash(board, overlay)| && IsSyscfg(BuildAndFlash(board, overlay)[i])) <==> overlay.Some?
    ensures forall c :: c in BuildAndFlash(board, overlay) && IsSyscfg(c) ==> c == TargetSet(Tester, "syscfg=" + SyscfgArg(overlay.value))
  {
    var calls, settings := BuildAndFlash(board, overlay), TargetSettings(board, overlay);
    var n := |settings|;
    assert calls[5..5 + n] == settings;
    assert forall k :: 0 <= k < |calls| && (k < 5 || 5 + n <= k) ==> !calls[k].TargetSet?;
    forall i | 0 <= i < |calls| && IsSyscfg(calls[i])
      ensures i == 9 && overlay.Some? && calls[i] == TargetSet(Tester, "syscfg=" + SyscfgArg(overlay.value))
    {
      assert calls[i] == settings[i - 5];
      SettingsSyscfg(board, overlay, i - 5);
    }
    if overlay.Some? {
      assert IsSyscfg(calls[9]);
    }
  }

  /**
    build_and_flash first removes the build output and both targets, then
    creates both targets and sets each one's BSP to the board and its app.
  */
  lemma BuildAndFlashPrepares(board: string, overlay: Option<Overlay>)
    ensures var calls := BuildAndFlash(board, overlay);
      Remove("bin/") in calls && Remove("targets/" + BootTarget(board) + "/") in calls && Remove("targets/bttester/") in calls
      && TargetCreate(BootTarget(board)) in calls && TargetCreate(Tester) in calls
      && TargetSet(BootTarget(board), BspSetting(board)) in calls
      && TargetSet(BootTarget(board), BootApp) in calls
      && TargetSet(Tester, BspSetting(board)) in calls
      && TargetSet(Tester, TesterApp) in calls
  {
    var calls := BuildAndFlash(board, overlay);
    var boot := BootTarget(board);
    assert calls[0] == Remove("bin/") && calls[1] == Remove("targets/" + boot + "/") && calls[2] == Remove("targets/bttester/");
    assert calls[3] == TargetCreate(boot) && calls[4] == TargetCreate(Tester);
    assert calls[5] == TargetSet(boot, BspSetting(board));
    assert calls[6] == TargetSet(boot, BootApp);
    assert calls[7] == TargetSet(Tester, BspSetting(board));
    assert calls[8] == TargetSet(Tester, TesterApp);
  }

  /** A target that is created, built, imaged and loaded. */
  predicate Deployed(calls: seq<Command>, target: string) {
    TargetCreate(target) in calls && Build(target) in calls && CreateImage(target) in calls && Load(target) in calls
  }

  /** build_and_flash takes both the boot loader and the tester from creation to load. */
  lemma BuildAndFlashDeploys(board: string, overlay: Option<Overlay>)
    ensures Deployed(BuildAndFlash(board, overlay), BootTarget(board))
    ensures Deployed(BuildAndFlash(board, overlay), Tester)
  {
    var calls := BuildAndFlash(board, overlay);
    var boot := BootTarget(board);
    var n := |calls|;
    assert calls[3] == TargetCreate(boot) && calls[4] == TargetCreate(Tester);
    assert calls[n - 6] == Build(boot) && calls[n - 5] == Build(Tester);
    assert calls[n - 4] == CreateImage(boot) && calls[n - 3] == CreateImage(Tester);
    assert calls[n - 2] == Load(boot) && calls[n - 1] == Load(Tester);
  }

  // ---------------------------------------------------------------------
  // Reading the syscfg argument back

  function FirstIndex(s: string, c: char): (r: Option<nat>)
    ensures r.Some? ==> r.value < |s| && s[r.value] == c && c !in s[..r.value]
    ensures r.None? ==> c !in s
  {
    if |s| == 0 then None
    else if s[0] == c then Some(0)
    else match FirstIndex(s[1..], c)
      case None => None
      case Some(i) =>
        assert s[..i + 1] == [s[0]] + s[1..][..i];
        Some(i + 1)
  }

  /** One k=v item read back: the key ends at the first '='. */
  function ParseSetting(e: string): (string, string) {
    match FirstIndex(e, '=')
    case None => (e, "")
    case Some(i) => (e[..i], e[i + 1..])
  }

  function ParseItems(s: string): seq<(string, string)>
    decreases |s|
  {
    match FirstIndex(s, ':')
    case None => [ParseSetting(s)]
    case Some(i) => [ParseSetting(s[..i])] + ParseItems(s[i + 1..])
  }

  /** The overlay items written in a syscfg argument, split at ':' and then at the first '='. */
  function ParseSyscfg(s: string): seq<(string, string)> {
    if s == "" then [] else ParseItems(s)
  }

  /** An overlay item whose key holds neither ':' nor '=' and whose value holds no ':'. */
  predicate PlainItem(kv: (string, string)) {
    ':' !in kv.0 && '=' !in kv.0 && ':' !in kv.1
  }

  lemma {:induction false} FirstIndexAfter(a: string, c: char, b: string)
    requires c !in a
    ensures FirstIndex(a + [c] + b, c) == Some(|a|)
  {
    if a != [] {
      assert (a + [c] + b)[1..] == a[1..] + [c] + b;
      FirstIndexAfter(a[1..], c, b);
    }
  }

  lemma SettingRoundTrip(kv: (string, string))
    requires PlainItem(kv)
    ensures ParseSetting(Setting(kv)) == kv
    ensures ':' !in Setting(kv)
  {
    FirstIndexAfter(kv.0, '=', kv.1);
    var s := Setting(kv);
    assert s[..|kv.0|] == kv.0 && s[|kv.0| + 1..] == kv.1;
  }

  /** Reading the syscfg argument back at ':' and '=' gives the overlay items, in order. */
  lemma {:induction false} SyscfgRoundTrip(overlay: Overlay)
    requires forall i :: 0 <= i < |overlay| ==> PlainItem(overlay[i])
    ensures ParseSyscfg(SyscfgArg(overlay)) == overlay
    decreases |overlay|
  {
    if |overlay| == 1 {
      SettingRoundTrip(overlay[0]);
    } else if |overlay| > 1 {
      var head, rest := Setting(overlay[0]), SyscfgArg(overlay[1..]);
      SettingRoundTrip(overlay[0]);
      FirstIndexAfter(head, ':', rest);
      var s := head + ":" + rest;
      assert s[..|head|] == head && s[|head| + 1..] == rest;
      SyscfgRoundTrip(overlay[1..]);
      SyscfgNonEmpty(overlay[1..]);
      assert overlay == [overlay[0]] + overlay[1..];
    }
  }

  /** The argument is empty exactly for an empty overlay, which still yields a bare `syscfg=`. */
  lemma {:induction false} SyscfgNonEmpty(overlay: Overlay)
    ensures SyscfgArg(overlay) == "" <==> overlay == []
  {
    if |overlay| > 0 {
      assert Setting(overlay[0])[|overlay[0].0|] == '=';
    }
  }

  // ---------------------------------------------------------------------
  // run_tests: which test cases each configuration runs

  type TestCase = string

  /**
    One value of iut_config: its 'overlay' entry, if the key is present, and
    its 'test_cases' entry, if that key is present.
  */
  datatype ConfigValue = ConfigValue(overlay: Option<Overlay>, testCases: Option<seq<TestCase>>)

  /** iut_config.items(), in dictionary order: configuration name and value. */
  type IutConfig = seq<(string, ConfigValue)>

  /** The test cases one configuration adds to default_to_omit: value.get('test_cases', []) of an overlay configuration. */
  function OmittedBy(v: ConfigValue): seq<TestCase> {
    if v.overlay.None? then [] else if v.testCases.None? then [] else v.testCases.value
  }

  /** The default_to_omit list after the first loop of run_tests. */
  function DefaultToOmit(cfg: IutConfig): seq<TestCase> {
    if cfg == [] then [] else DefaultToOmit(cfg[..|cfg| - 1]) + OmittedBy(cfg[|cfg| - 1].1)
  }

  /**
    A test case is in default_to_omit exactly when some configuration with an
    overlay lists it in its test_cases; configurations without an overlay,
    or without test_cases, add nothing.
  */
  lemma {:induction false} DefaultToOmitMembers(cfg: IutConfig, tc: TestCase)
    ensures tc in DefaultToOmit(cfg) <==>
      exists i :: 0 <= i < |cfg| && cfg[i].1.overlay.Some? && cfg[i].1.testCases.Some? && tc in cfg[i].1.testCases.value
  {
    if cfg != [] {
      var n := |cfg| - 1;
      DefaultToOmitMembers(cfg[..n], tc);
      assert forall i :: 0 <= i < n ==> cfg[..n][i] == cfg[i];
    }
  }

  /**
    The first loop of run_tests: default_to_omit grows by the test cases of
    each overlay configuration, one at a time, in configuration order.
  */
  method CollectDefaultToOmit(cfg: IutConfig) returns (omit: seq<TestCase>)
    ensures omit == DefaultToOmit(cfg)
  {
    omit := [];
    var i := 0;
    while i < |cfg|
      invariant 0 <= i <= |cfg|
      invariant omit == DefaultToOmit(cfg[..i])
    {
      var value := cfg[i].1;
      assert cfg[..i + 1][..i] == cfg[..i];
      if value.overlay.Some? {
        var listed := if value.testCases.Some? then value.testCases.value else [];
        var j := 0;
        while j < |listed|
          invariant 0 <= j <= |listed|
          invariant omit == DefaultToOmit(cfg[..i]) + listed[..j]
        {
          omit := omit + [listed[j]];
          assert listed[..j + 1] == listed[..j] + [listed[j]];
          j := j + 1;
        }
        assert listed[..j] == listed;
      }
      i := i + 1;
    }
    assert cfg[..i] == cfg;
  }

  /** The allow-list (to_run) and deny-list (to_omit) one configuration runs with. */
  datatype Selection = Selection(toRun: seq<TestCase>, toOmit: Option<seq<TestCase>>)

  /**
    The choice made at the top of the second loop: an overlay configuration
    runs its own test_cases with no deny-list; any other runs its test_cases
    with default_to_omit as the deny-list. value['test_cases'] raises
    KeyError when the key is missing.
  */
  function Select(v: ConfigValue, defaultToOmit: seq<TestCase>): (r: Result<Selection, BotError>)
    ensures r.Failure? <==> v.testCases.None?
    ensures r.Failure? ==> r.error == KeyError
    ensures r.Success? ==> r.value.toRun == v.testCases.value
    ensures r.Success? ==> (r.value.toOmit == None <==> v.overlay.Some?)
    ensures r.Success? && v.overlay.None? ==> r.value.toOmit == Some(defaultToOmit)
  {
    if v.overlay.Some? then
      if v.testCases.None? then Failure(KeyError) else Success(Selection(v.testCases.value, None))
    else
      if v.testCases.None? then Failure(KeyError) else Success(Selection(v.testCases.value, Some(defaultToOmit)))
  }

  /** `to_run or to_omit`: a non-empty allow-list or a non-empty deny-list (None is false). */
  predicate Narrows(sel: Selection) {
    |sel.toRun| > 0 || (sel.toOmit.Some? && |sel.toOmit.value| > 0)
  }

  /** get_test_cases_subset(test_cases, to_run, to_omit), which this file does not define. */
  type SubsetFilter = (seq<TestCase>, seq<TestCase>, Option<seq<TestCase>>) -> seq<TestCase>

  /** The test cases one configuration runs: the catalogue, filtered only when the selection narrows it. */
  function ChooseTests(catalogue: seq<TestCase>, sel: Selection, subset: SubsetFilter): (tests: seq<TestCase>)
    ensures !Narrows(sel) ==> tests == catalogue
    ensures Narrows(sel) ==> tests == subset(catalogue, sel.toRun, sel.toOmit)
  {
    if Narrows(sel) then subset(catalogue, sel.toRun, sel.toOmit)
    else catalogue
  }

  /**
    A configuration with an overlay but an empty test_cases list, or a plain
    configuration with an empty list while no overlay configuration lists
    anything, runs the whole catalogue.
  */
  lemma WholeCatalogue(cfg: IutConfig, i: nat, catalogue: seq<TestCase>, subset: SubsetFilter)
    requires i < |cfg| && cfg[i].1.testCases == Some([])
    requires cfg[i].1.overlay.None? ==> DefaultToOmit(cfg) == []
    ensures ChooseTests(catalogue, Select(cfg[i].1, DefaultToOmit(cfg)).value, subset) == catalogue
  {
  }

  // ---------------------------------------------------------------------
  // run_tests: merging what the runs report

  /**
    What run_test_cases reports for one configuration: the status counts as
    the items of its dictionary, in order, the result of each test case, and
    the regressions it found.
  */
  datatype RunReport = RunReport(statusCount: seq<(string, int)>, results: map<TestCase, string>, regressions: seq<TestCase>)

  /** status.get(k, 0) */
  function Count(status: map<string, int>, k: string): int {
    if k in status then status[k] else 0
  }

  /** The status dictionary after the given items of one run's counts are added into it. */
  function AddItems(status: map<string, int>, items: seq<(string, int)>): map<string, int> {
    if items == [] then status
    else
      var before := AddItems(status, items[..|items| - 1]);
      var (k, v) := items[|items| - 1];
      before[k := Count(before, k) + v]
  }

  /** The sum of the counts the items give for status `k`. */
  function ItemsSum(items: seq<(string, int)>, k: string): int {
    if items == [] then 0
    else ItemsSum(items[..|items| - 1], k) + (if items[|items| - 1].0 == k then items[|items| - 1].1 else 0)
  }

  /**
    The status loop of run_tests: each status of the run is added to the
    running count, or enters with the run's count when it is new.
  */
  method AddStatusCounts(status: map<string, int>, items: seq<(string, int)>) returns (total: map<string, int>)
    ensures total == AddItems(status, items)
  {
    total := status;
    var i := 0;
    while i < |items|
      invariant 0 <= i <= |items|
      invariant total == AddItems(status, items[..i])
    {
      var (k, v) := items[i];
      assert items[..i + 1][..i] == items[..i];
      if k in total.Keys {
        total := total[k := total[k] + v];
      } else {
        total := total[k := v];
      }
      i := i + 1;
    }
    assert items[..i] == items;
  }

  /**
    Adding a run's counts adds, for every status, the sum of that run's
    counts for it; the statuses are those already counted and the run's.
  */
  lemma {:induction false} AddItemsCount(status: map<string, int>, items: seq<(string, int)>, k: string)
    ensures Count(AddItems(status, items), k) == Count(status, k) + ItemsSum(items, k)
    ensures k in AddItems(status, items) <==> k in status || exists j :: 0 <= j < |items| && items[j].0 == k
  {
    if items != [] {
      var n := |items| - 1;
      AddItemsCount(status, items[..n], k);
      assert forall j :: 0 <= j < n ==> items[..n][j] == items[j];
    }
  }

  /** The status dictionary of run_tests after the given runs. */
  function TotalStatus(runs: seq<RunReport>): map<string, int> {
    if runs == [] then map[] else AddItems(TotalStatus(runs[..|runs| - 1]), runs[|runs| - 1].statusCount)
  }

  /** The sum over the runs of each run's counts for status `k`. */
  function StatusSum(runs: seq<RunReport>, k: string): int {
    if runs == [] then 0 else StatusSum(runs[..|runs| - 1], k) + ItemsSum(runs[|runs| - 1].statusCount, k)
  }

  /**
    After the runs, status[k] is the sum of every run's count for `k`, and
    the statuses counted are exactly those some run reported.
  */
  lemma {:induction false} TotalStatusCounts(runs: seq<RunReport>, k: string)
    ensures Count(TotalStatus(runs), k) == StatusSum(runs, k)
    ensures k in TotalStatus(runs) <==>
      exists i, j :: 0 <= i < |runs| && 0 <= j < |runs[i].statusCount| && runs[i].statusCount[j].0 == k
  {
    if runs != [] {
      var n := |runs| - 1;
      TotalStatusCounts(runs[..n], k);
      AddItemsCount(TotalStatus(runs[..n]), runs[n].statusCount, k);
      assert forall i :: 0 <= i < n ==> runs[..n][i] == runs[i];
    }
  }

  /** results.update(results_dict) over the runs: a later run's result for a test case replaces an earlier one. */
  function MergeResults(runs: seq<RunReport>): map<TestCase, string> {
    if runs == [] then map[] else MergeResults(runs[..|runs| - 1]) + runs[|runs| - 1].results
  }

  /** The merged results name exactly the test cases some run reported. */
  lemma {:induction false} MergeResultsKeys(runs: seq<RunReport>, tc: TestCase)
    ensures tc in MergeResults(runs) <==> exists i :: 0 <= i < |runs| && tc in runs[i].results
  {
    if runs != [] {
      var n := |runs| - 1;
      MergeResultsKeys(runs[..n], tc);
      assert forall i :: 0 <= i < n ==> runs[..n][i] == runs[i];
    }
  }

  /** A test case's merged result is the one the last run that reported it gave. */
  lemma {:induction false} MergeResultsLastWins(runs: seq<RunReport>, tc: TestCase, i: nat)
    requires i < |runs| && tc in runs[i].results
    requires forall j :: i < j < |runs| ==> tc !in runs[j].results
    ensures tc in MergeResults(runs) && MergeResults(runs)[tc] == runs[i].results[tc]
  {
    var n := |runs| - 1;
    if i < n {
      assert runs[..n][i] == runs[i];
      MergeResultsLastWins(runs[..n], tc, i);
    }
  }

  /**
    The descriptions loop of run_tests: one description per test case with
    a result, looked up by the description function.
  */
  method DescribeAll(results: map<TestCase, string>, describe: TestCase -> string) returns (descriptions: map<TestCase, string>)
    ensures descriptions.Keys == results.Keys
    ensures forall tc :: tc in descriptions ==> descriptions[tc] == describe(tc)
  {
    descriptions := map[];
    var todo := results.Keys;
    while todo != {}
      invariant todo <= results.Keys
      invariant descriptions.Keys == results.Keys - todo
      invariant forall tc :: tc in descriptions ==> descriptions[tc] == describe(tc)
      decreases |todo|
    {
      var tc :| tc in todo;
      descriptions := descriptions[tc := describe(tc)];
      todo := todo - {tc};
    }
  }

  // ---------------------------------------------------------------------
  // run_tests

  /**
    run_test_cases for the IUT flashed by the given build commands, on the
    given test cases; the PTS session behind it is not part of this model.
  */
  type Runner = (seq<Command>, seq<TestCase>) -> RunReport

  /** Every configuration among the first `n` has a test_cases entry. */
  predicate Listed(cfg: IutConfig, n: nat) {
    n <= |cfg| && forall i :: 0 <= i < n ==> cfg[i].1.testCases.Some?
  }

  /** What the run of the i-th configuration reports: its firmware built, then its test cases run. */
  function RunOf(board: Option<string>, cfg: IutConfig, i: nat, catalogue: seq<TestCase>, subset: SubsetFilter, run: Runner): RunReport
    requires MynewtBoard(board).Success? && i < |cfg| && cfg[i].1.testCases.Some?
  {
    var value := cfg[i].1;
    var firmware := BuildAndFlash(BoardText(MynewtBoard(board).value), value.overlay);
    run(firmware, ChooseTests(catalogue, Select(value, DefaultToOmit(cfg)).value, subset))
  }

  /** The reports of the first `n` configurations, in configuration order. */
  function Runs(board: Option<string>, cfg: IutConfig, n: nat, catalogue: seq<TestCase>, subset: SubsetFilter, run: Runner): (runs: seq<RunReport>)
    requires MynewtBoard(board).Success? && Listed(cfg, n)
    ensures |runs| == n
  {
    seq(n, i requires 0 <= i < n => RunOf(board, cfg, i, catalogue, subset, run))
  }

  /** What run_tests returns: status, results, descriptions and regressions. */
  datatype Report = Report(
    status: map<string, int>,
    results: map<TestCase, string>,
    descriptions: map<TestCase, string>,
    regressions: seq<TestCase>)

  /**
    run_tests: collects default_to_omit, then for each configuration selects
    its test cases, builds and flashes the tester, runs the tests and merges
    what the run reports. The report sums the status counts of all runs,
    holds each test case's last result and a description of each, and the
    regressions of the last run only. A configuration without test_cases
    and a board autopts2board does not list raise KeyError; with no
    configuration at all, `regressions` is never bound and the return raises
    UnboundLocalError.
  */
  method RunTests(board: Option<string>, cfg: IutConfig, catalogue: seq<TestCase>, subset: SubsetFilter,
                  run: Runner, describe: TestCase -> string)
    returns (r: Result<Report, BotError>)
    ensures cfg == [] ==> r == Failure(UnboundLocalError)
    ensures cfg != [] ==> (r.Failure? <==> !Listed(cfg, |cfg|) || MynewtBoard(board).Failure?)
    ensures cfg != [] && r.Failure? ==> r.error == KeyError
    ensures r.Success? ==>
      cfg != [] && Listed(cfg, |cfg|) && MynewtBoard(board).Success? &&
      var runs := Runs(board, cfg, |cfg|, catalogue, subset, run);
      r.value.status == TotalStatus(runs) &&
      r.value.results == MergeResults(runs) &&
      r.value.descriptions.Keys == r.value.results.Keys &&
      (forall tc :: tc in r.value.descriptions ==> r.value.descriptions[tc] == describe(tc)) &&
      r.value.regressions == runs[|cfg| - 1].regressions
  {
    var omit := CollectDefaultToOmit(cfg);
    var status: map<string, int> := map[];
    var results: map<TestCase, string> := map[];
    var regressions: Option<seq<TestCase>> := None;
    var i := 0;
    while i < |cfg|
      invariant 0 <= i <= |cfg| && Listed(cfg, i)
      invariant i > 0 ==> MynewtBoard(board).Success?
      invariant i > 0 ==> status == TotalStatus(Runs(board, cfg, i, catalogue, subset, run))
      invariant i > 0 ==> results == MergeResults(Runs(board, cfg, i, catalogue, subset, run))
      invariant i > 0 ==> regressions == Some(Runs(board, cfg, i, catalogue, subset, run)[i - 1].regressions)
      invariant i == 0 ==> status == map[] && results == map[] && regressions == None
    {
      var report := RunConfig(board, cfg, i, omit, catalogue, subset, run);
      if report.Failure? {
        return Failure(report.error);
      }
      RunsPrefix(board, cfg, i, catalogue, subset, run);
      MergeStep(Runs(board, cfg, i + 1, catalogue, subset, run), i);
      status := AddStatusCounts(status, report.value.statusCount);
      results := results + report.value.results;
      regressions := Some(report.value.regressions);
      i := i + 1;
    }
    if regressions.None? {
      return Failure(UnboundLocalError);
    }
    var descriptions := DescribeAll(results, describe);
    r := Success(Report(status, results, descriptions, regressions.value));
  }

  /**
    One pass of run_tests' second loop up to the run: the selection, the
    board lookup, the build and the run of the i-th configuration.
  */
  method RunConfig(board: Option<string>, cfg: IutConfig, i: nat, omit: seq<TestCase>, catalogue: seq<TestCase>,
                   subset: SubsetFilter, run: Runner)
    returns (r: Result<RunReport, BotError>)
    requires i < |cfg| && omit == DefaultToOmit(cfg)
    ensures r.Failure? <==> cfg[i].1.testCases.None? || MynewtBoard(board).Failure?
    ensures r.Failure? ==> r.error == KeyError
    ensures r.Success? ==> r.value == RunOf(board, cfg, i, catalogue, subset, run)
  {
    var value := cfg[i].1;
    var selection := Select(value, omit);
    if selection.Failure? {
      return Failure(selection.error);
    }
    var target := MynewtBoard(board);
    if target.Failure? {
      return Failure(target.error);
    }
    var firmware := BuildAndFlash(BoardText(target.value), value.overlay);
    var tests := ChooseTests(catalogue, selection.value, subset);
    r := Success(run(firmware, tests));
  }

  /** Folding in one more run adds its counts and lays its results over the earlier ones. */
  lemma MergeStep(runs: seq<RunReport>, n: nat)
    requires |runs| == n + 1
    ensures TotalStatus(runs) == AddItems(TotalStatus(runs[..n]), runs[n].statusCount)
    ensures MergeResults(runs) == MergeResults(runs[..n]) + runs[n].results
  {
  }

  /** The reports of one more configuration extend the reports so far by its own. */
  lemma RunsPrefix(board: Option<string>, cfg: IutConfig, n: nat, catalogue: seq<TestCase>, subset: SubsetFilter, run: Runner)
    requires MynewtBoard(board).Success? && Listed(cfg, n + 1)
    ensures var runs := Runs(board, cfg, n + 1, catalogue, subset, run);
      runs[..n] == Runs(board, cfg, n, catalogue, subset, run) &&
      runs[n] == RunOf(board, cfg, n, catalogue, subset, run)
  {
    var runs := Runs(board, cfg, n + 1, catalogue, subset, run);
    var before := Runs(board, cfg, n, catalogue, subset, run);
    forall i | 0 <= i < n
      ensures runs[i] == before[i]
    {
    }
    assert runs[..n] == before;
  }
}
