/** The retention command: its argument parser, and the run the parsed arguments start. */
module RetentionCli {
  import opened Kernel
  import opened Schema
  import opened Repositories
  import opened RetentionPolicy
  import opened RetentionSafety
  import opened RetentionWindows
  import opened RetentionExecutor

  const MAX_BATCH_SIZE := 50_000
  const DEFAULT_MAX_BATCHES := 1_000

  const CATEGORY_FLAG := "--category="
  const BATCH_SIZE_FLAG := "--batch-size="
  const MAX_BATCHES_FLAG := "--max-batches="

  datatype Problem =
    | UnknownCategory(name: string)
    | NotDigits(flag: string, raw: string)
    | OutOfRange(flag: string, value: nat, max: nat)
    | UnknownArgument(argument: string)
    | ModesExclude

  datatype Args =
    | Run(mode: Mode, categories: seq<Category>, batchSize: Option<nat>, maxBatches: nat, json: bool)
    | Help
    | Error(problems: seq<Problem>)

  function Name(c: Category): string {
    match c
    case SecurityEvents => "security_events"
    case ExpiredRefreshTokens => "expired_refresh_tokens"
    case ExpiredSessions => "expired_sessions"
    case ExpiredVerificationTokens => "expired_email_verification_tokens"
    case ExpiredResetTokens => "expired_password_reset_tokens"
    case ExpiredPendings => "expired_pending_registrations"
  }

  lemma NamesDiffer(c: Category, d: Category)
    requires Name(c) == Name(d)
    ensures c == d
  {
    assert |Name(SecurityEvents)| == 15 && |Name(ExpiredRefreshTokens)| == 22 && |Name(ExpiredSessions)| == 16;
    assert |Name(ExpiredVerificationTokens)| == 33;
    assert |Name(ExpiredResetTokens)| == 29 && |Name(ExpiredPendings)| == 29;
    assert Name(ExpiredResetTokens)[9] == 'a' && Name(ExpiredPendings)[9] == 'e';
  }

  predicate AllDigits(s: string) {
    s != [] && forall i :: 0 <= i < |s| ==> '0' <= s[i] <= '9'
  }

  /** The number a decimal string denotes. */
  function Number(s: string): nat
    requires forall i :: 0 <= i < |s| ==> '0' <= s[i] <= '9'
  {
    if s == [] then 0 else 10 * Number(s[..|s| - 1]) + (s[|s| - 1] - '0') as nat
  }

  /** The value a bounded flag carries, if it is well formed. */
  function Bounded(raw: string, max: nat): (r: Option<nat>)
    ensures r.Some? ==> 1 <= r.value <= max
  {
    if AllDigits(raw) && 1 <= Number(raw) <= max then Some(Number(raw)) else None
  }

  function BoundProblem(raw: string, flag: string, max: nat): Problem {
    if AllDigits(raw) then OutOfRange(flag, Number(raw), max) else NotDigits(flag, raw)
  }

  // ---------------------------------------------------------------- what a command line means

  predicate AsksForHelp(argument: string) {
    argument == "--help" || argument == "-h"
  }

  predicate IsSwitch(argument: string) {
    argument == "--" || argument == "--apply" || argument == "--dry-run" || argument == "--json"
  }

  function Value(argument: string, flag: string): string
    requires flag <= argument
  {
    argument[|flag|..]
  }

  /** Some category has this name. */
  predicate Known(name: string) {
    exists c :: c in CATALOG && Name(c) == name
  }

  /** The error an argument causes, if any. */
  function ProblemOf(argument: string): Option<Problem> {
    if IsSwitch(argument) || AsksForHelp(argument) then None
    else if CATEGORY_FLAG <= argument then
      if Known(Value(argument, CATEGORY_FLAG)) then None else Some(UnknownCategory(Value(argument, CATEGORY_FLAG)))
    else if BATCH_SIZE_FLAG <= argument then
      if Bounded(Value(argument, BATCH_SIZE_FLAG), MAX_BATCH_SIZE).Some? then None
      else Some(BoundProblem(Value(argument, BATCH_SIZE_FLAG), "--batch-size", MAX_BATCH_SIZE))
    else if MAX_BATCHES_FLAG <= argument then
      if Bounded(Value(argument, MAX_BATCHES_FLAG), DEFAULT_MAX_BATCHES).Some? then None
      else Some(BoundProblem(Value(argument, MAX_BATCHES_FLAG), "--max-batches", DEFAULT_MAX_BATCHES))
    else Some(UnknownArgument(argument))
  }

  /** Every argument's error, in the order of the arguments. */
  function Problems(argv: seq<string>): seq<Problem> {
    if argv == [] then []
    else
      var p := ProblemOf(argv[|argv| - 1]);
      Problems(argv[..|argv| - 1]) + (if p.Some? then [p.value] else [])
  }

  lemma {:induction false} NoProblems(argv: seq<string>)
    ensures Problems(argv) == [] <==> forall i :: 0 <= i < |argv| ==> ProblemOf(argv[i]).None?
  {
    if argv != [] {
      var init, last := argv[..|argv| - 1], ProblemOf(argv[|argv| - 1]);
      NoProblems(init);
      assert Problems(argv) == Problems(init) + (if last.Some? then [last.value] else []);
      assert forall i :: 0 <= i < |init| ==> init[i] == argv[i];
    }
  }

  /** The last argument carrying the flag decides; without one there is no value. */
  ghost predicate LastValue(argv: seq<string>, flag: string, max: nat, v: Option<nat>) {
    match v
    case None => forall i :: 0 <= i < |argv| ==> !(flag <= argv[i])
    case Some(n) => exists i :: DecidedBy(argv, i, flag, max, n)
  }

  ghost predicate DecidedBy(argv: seq<string>, i: int, flag: string, max: nat, n: nat) {
    && 0 <= i < |argv| && flag <= argv[i] && Bounded(Value(argv[i], flag), max) == Some(n)
    && forall j :: i < j < |argv| ==> !(flag <= argv[j])
  }

  predicate Selected(argv: seq<string>, c: Category) {
    CATEGORY_FLAG + Name(c) in argv
  }

  /** The whole meaning of an accepted command line. */
  ghost predicate Means(argv: seq<string>, r: Args)
    requires r.Run?
  {
    && (r.mode.Apply? <==> "--apply" in argv)
    && (r.json <==> "--json" in argv)
    && InCatalogOrder(r.categories)
    && (forall c :: c in r.categories <==> Selected(argv, c) || (forall d :: d in CATALOG ==> !Selected(argv, d)))
    && LastValue(argv, BATCH_SIZE_FLAG, MAX_BATCH_SIZE, r.batchSize)
    && (LastValue(argv, MAX_BATCHES_FLAG, DEFAULT_MAX_BATCHES, Some(r.maxBatches))
        || (r.maxBatches == DEFAULT_MAX_BATCHES && LastValue(argv, MAX_BATCHES_FLAG, DEFAULT_MAX_BATCHES, None)))
    && 1 <= r.maxBatches <= DEFAULT_MAX_BATCHES
    && (r.batchSize.Some? ==> 1 <= r.batchSize.value <= MAX_BATCH_SIZE)
  }

  // ---------------------------------------------------------------- the parser

  /** `Array.find` over the catalog. */
  method FindCategory(name: string) returns (r: Option<Category>)
    ensures r.Some? <==> Known(name)
    ensures r.Some? ==> Name(r.value) == name
  {
    for i := 0 to |CATALOG|
      invariant forall k :: 0 <= k < i ==> Name(CATALOG[k]) != name
    {
      if Name(CATALOG[i]) == name {
        return Some(CATALOG[i]);
      }
    }
    r := None;
  }

  method ParseBoundedInteger(raw: string, flag: string, max: nat, errors: seq<Problem>)
    returns (r: Option<nat>, errors': seq<Problem>)
    ensures r == Bounded(raw, max)
    ensures errors' == errors + (if r.Some? then [] else [BoundProblem(raw, flag, max)])
  {
    if !AllDigits(raw) {
      return None, errors + [NotDigits(flag, raw)];
    }
    var value := Number(raw);
    if value < 1 || value > max {
      return None, errors + [OutOfRange(flag, value, max)];
    }
    return Some(value), errors;
  }

  /** The catalog filtered by a selection keeps the catalog's order. */
  method FilterCatalog(selected: seq<Category>) returns (cs: seq<Category>)
    ensures InCatalogOrder(cs)
    ensures forall c :: c in cs <==> c in selected
  {
    cs := [];
    for i := 0 to |CATALOG|
      invariant InCatalogOrder(cs)
      invariant forall c :: c in cs <==> c in selected && c in CATALOG[..i]
      invariant forall c :: c in cs ==> Rank(c) < i
    {
      assert Rank(CATALOG[i]) == i;
      if CATALOG[i] in selected {
        cs := cs + [CATALOG[i]];
      }
    }
    assert CATALOG[..|CATALOG|] == CATALOG;
    forall c: Category ensures c in CATALOG {
      assert CATALOG[Rank(c)] == c;
    }
  }

  lemma LastValueExtends(argv: seq<string>, i: nat, flag: string, max: nat, v: Option<nat>)
    requires i < |argv|
    ensures !(flag <= argv[i]) && LastValue(argv[..i], flag, max, v) ==> LastValue(argv[..i + 1], flag, max, v)
    ensures flag <= argv[i] && Bounded(Value(argv[i], flag), max).Some? ==>
              LastValue(argv[..i + 1], flag, max, Bounded(Value(argv[i], flag), max))
  {
    if !(flag <= argv[i]) && v.Some? && LastValue(argv[..i], flag, max, v) {
      var k :| DecidedBy(argv[..i], k, flag, max, v.value);
      assert DecidedBy(argv[..i + 1], k, flag, max, v.value);
    }
    if flag <= argv[i] && Bounded(Value(argv[i], flag), max).Some? {
      assert DecidedBy(argv[..i + 1], i, flag, max, Bounded(Value(argv[i], flag), max).value);
    }
  }

  /** No argument carries two flags, and no switch carries one. */
  lemma FlagsDiffer(argument: string)
    ensures IsSwitch(argument) || AsksForHelp(argument) ==>
              !(CATEGORY_FLAG <= argument) && !(BATCH_SIZE_FLAG <= argument) && !(MAX_BATCHES_FLAG <= argument)
    ensures CATEGORY_FLAG <= argument ==> !(BATCH_SIZE_FLAG <= argument) && !(MAX_BATCHES_FLAG <= argument)
    ensures BATCH_SIZE_FLAG <= argument ==> !(MAX_BATCHES_FLAG <= argument)
  {
    assert CATEGORY_FLAG <= argument ==> argument[2] == CATEGORY_FLAG[2] == 'c';
    assert BATCH_SIZE_FLAG <= argument ==> argument[2] == BATCH_SIZE_FLAG[2] == 'b';
    assert MAX_BATCHES_FLAG <= argument ==> argument[2] == MAX_BATCHES_FLAG[2] == 'm';
  }

  /** Which categories the arguments read so far selected. */
  lemma SelectedExtends(argv: seq<string>, i: nat, c: Category)
    requires i < |argv|
    ensures Selected(argv[..i + 1], c) <==>
              Selected(argv[..i], c) || (CATEGORY_FLAG <= argv[i] && Value(argv[i], CATEGORY_FLAG) == Name(c))
  {
    assert argv[..i + 1] == argv[..i] + [argv[i]];
    if argv[i] == CATEGORY_FLAG + Name(c) {
      assert Value(argv[i], CATEGORY_FLAG) == Name(c);
    }
    if CATEGORY_FLAG <= argv[i] && Value(argv[i], CATEGORY_FLAG) == Name(c) {
      assert argv[i] == CATEGORY_FLAG + Value(argv[i], CATEGORY_FLAG);
    }
  }

  /** The parser's variables after reading `read`. A flag value is only meaningful while no error was found. */
  ghost predicate ReadSoFar(read: seq<string>, errors: seq<Problem>, selected: seq<Category>, apply: bool, dryRun: bool,
                            json: bool, batchSize: Option<nat>, maxBatches: nat) {
    && errors == Problems(read)
    && (apply <==> "--apply" in read) && (dryRun <==> "--dry-run" in read) && (json <==> "--json" in read)
    && (forall c :: c in selected <==> Selected(read, c))
    && (errors == [] ==> BoundsReading(read, batchSize, maxBatches))
  }

  /** `ReadSoFar`, wrapped in a one-point quantifier: a proof sees the body only where it names `ReadSoFar`. */
  ghost predicate Reading(read: seq<string>, errors: seq<Problem>, selected: seq<Category>, apply: bool, dryRun: bool,
                          json: bool, batchSize: Option<nat>, maxBatches: nat) {
    forall r :: r == read ==> ReadSoFar(r, errors, selected, apply, dryRun, json, batchSize, maxBatches)
  }

  ghost predicate MaxRead(read: seq<string>, maxBatches: nat) {
    || LastValue(read, MAX_BATCHES_FLAG, DEFAULT_MAX_BATCHES, Some(maxBatches))
    || (maxBatches == DEFAULT_MAX_BATCHES && LastValue(read, MAX_BATCHES_FLAG, DEFAULT_MAX_BATCHES, None))
  }

  ghost predicate BoundsRead(read: seq<string>, batchSize: Option<nat>, maxBatches: nat) {
    LastValue(read, BATCH_SIZE_FLAG, MAX_BATCH_SIZE, batchSize) && MaxRead(read, maxBatches)
  }

  /** `BoundsRead`, wrapped like `Reading`. */
  ghost predicate BoundsReading(read: seq<string>, batchSize: Option<nat>, maxBatches: nat) {
    forall r :: r == read ==> BoundsRead(r, batchSize, maxBatches)
  }

  lemma MaxExtends(argv: seq<string>, i: nat, m: nat)
    requires i < |argv|
    ensures !(MAX_BATCHES_FLAG <= argv[i]) && MaxRead(argv[..i], m) ==> MaxRead(argv[..i + 1], m)
    ensures MAX_BATCHES_FLAG <= argv[i] ==>
              var b := Bounded(Value(argv[i], MAX_BATCHES_FLAG), DEFAULT_MAX_BATCHES); b.Some? ==> MaxRead(argv[..i + 1], b.value)
  {
    LastValueExtends(argv, i, MAX_BATCHES_FLAG, DEFAULT_MAX_BATCHES, Some(m));
    LastValueExtends(argv, i, MAX_BATCHES_FLAG, DEFAULT_MAX_BATCHES, None);
  }

  /** A well-formed argument moves the bounds exactly if it carries one. */
  lemma BoundsExtend(argv: seq<string>, i: nat, batchSize: Option<nat>, batchSize': Option<nat>, maxBatches: nat, maxBatches': nat)
    requires i < |argv| && ProblemOf(argv[i]).None? && BoundsReading(argv[..i], batchSize, maxBatches)
    requires batchSize' == if BATCH_SIZE_FLAG <= argv[i] then Bounded(Value(argv[i], BATCH_SIZE_FLAG), MAX_BATCH_SIZE) else batchSize
    requires maxBatches' == if MAX_BATCHES_FLAG <= argv[i] && Bounded(Value(argv[i], MAX_BATCHES_FLAG), DEFAULT_MAX_BATCHES).Some?
                            then Bounded(Value(argv[i], MAX_BATCHES_FLAG), DEFAULT_MAX_BATCHES).value else maxBatches
    ensures BoundsReading(argv[..i + 1], batchSize', maxBatches')
  {
    assert BoundsRead(argv[..i], batchSize, maxBatches);
    FlagsDiffer(argv[i]);
    LastValueExtends(argv, i, BATCH_SIZE_FLAG, MAX_BATCH_SIZE, batchSize);
    MaxExtends(argv, i, maxBatches);
    if batchSize'.None? {
      assert forall k :: 0 <= k < i ==> !(BATCH_SIZE_FLAG <= argv[..i][k]) && argv[..i + 1][k] == argv[..i][k];
    }
  }

  lemma SwitchesExtend(argv: seq<string>, i: nat, switch: string)
    requires i < |argv|
    ensures switch in argv[..i + 1] <==> switch in argv[..i] || argv[i] == switch
  {
    assert argv[..i + 1] == argv[..i] + [argv[i]];
  }

  lemma ProblemsExtend(argv: seq<string>, i: nat)
    requires i < |argv|
    ensures Problems(argv[..i + 1]) ==
              Problems(argv[..i]) + (if ProblemOf(argv[i]).Some? then [ProblemOf(argv[i]).value] else [])
  {
    assert argv[..i + 1][..i] == argv[..i];
  }

  lemma ReadingStarts()
    ensures Reading([], [], [], false, false, false, None, DEFAULT_MAX_BATCHES)
  {
  }

  lemma SwitchRead(argv: seq<string>, i: nat, errors: seq<Problem>, selected: seq<Category>, apply: bool, dryRun: bool,
                   json: bool, batchSize: Option<nat>, maxBatches: nat)
    requires i < |argv| && Reading(argv[..i], errors, selected, apply, dryRun, json, batchSize, maxBatches)
    requires IsSwitch(argv[i])
    ensures Reading(argv[..i + 1], errors, selected, apply || argv[i] == "--apply", dryRun || argv[i] == "--dry-run",
                    json || argv[i] == "--json", batchSize, maxBatches)
  {
    assert ReadSoFar(argv[..i], errors, selected, apply, dryRun, json, batchSize, maxBatches);
    FlagsDiffer(argv[i]);
    ProblemsExtend(argv, i);
    SwitchesExtend(argv, i, "--apply");
    SwitchesExtend(argv, i, "--dry-run");
    SwitchesExtend(argv, i, "--json");
    if errors == [] {
      BoundsExtend(argv, i, batchSize, batchSize, maxBatches, maxBatches);
    }
    SwitchSelectsNothing(argv, i);
  }

  lemma SwitchSelectsNothing(argv: seq<string>, i: nat)
    requires i < |argv| && !(CATEGORY_FLAG <= argv[i])
    ensures forall c :: Selected(argv[..i + 1], c) <==> Selected(argv[..i], c)
  {
    forall c ensures Selected(argv[..i + 1], c) <==> Selected(argv[..i], c) {
      SelectedExtends(argv, i, c);
    }
  }

  /** An argument that is no switch: what each variable must become. */
  lemma ValueRead(argv: seq<string>, i: nat, errors: seq<Problem>, errors': seq<Problem>, selected: seq<Category>, selected': seq<Category>,
                  apply: bool, dryRun: bool, json: bool, batchSize: Option<nat>, batchSize': Option<nat>, maxBatches: nat, maxBatches': nat)
    requires i < |argv| && Reading(argv[..i], errors, selected, apply, dryRun, json, batchSize, maxBatches)
    requires !IsSwitch(argv[i]) && !AsksForHelp(argv[i])
    requires errors' == errors + (if ProblemOf(argv[i]).Some? then [ProblemOf(argv[i]).value] else [])
    requires forall c :: c in selected' <==> c in selected || (CATEGORY_FLAG <= argv[i] && Value(argv[i], CATEGORY_FLAG) == Name(c))
    requires batchSize' == if BATCH_SIZE_FLAG <= argv[i] then Bounded(Value(argv[i], BATCH_SIZE_FLAG), MAX_BATCH_SIZE) else batchSize
    requires maxBatches' == if MAX_BATCHES_FLAG <= argv[i] && Bounded(Value(argv[i], MAX_BATCHES_FLAG), DEFAULT_MAX_BATCHES).Some?
                            then Bounded(Value(argv[i], MAX_BATCHES_FLAG), DEFAULT_MAX_BATCHES).value else maxBatches
    ensures Reading(argv[..i + 1], errors', selected', apply, dryRun, json, batchSize', maxBatches')
  {
    assert ReadSoFar(argv[..i], errors, selected, apply, dryRun, json, batchSize, maxBatches);
    ProblemsExtend(argv, i);
    SwitchesExtend(argv, i, "--apply");
    SwitchesExtend(argv, i, "--dry-run");
    SwitchesExtend(argv, i, "--json");
    if errors' == [] {
      BoundsExtend(argv, i, batchSize, batchSize', maxBatches, maxBatches');
    }
    ValueSelects(argv, i, selected, selected');
  }

  lemma ValueSelects(argv: seq<string>, i: nat, selected: seq<Category>, selected': seq<Category>)
    requires i < |argv| && forall c :: c in selected <==> Selected(argv[..i], c)
    requires forall c :: c in selected' <==> c in selected || (CATEGORY_FLAG <= argv[i] && Value(argv[i], CATEGORY_FLAG) == Name(c))
    ensures forall c :: c in selected' <==> Selected(argv[..i + 1], c)
  {
    forall c ensures c in selected' <==> Selected(argv[..i + 1], c) {
      SelectedExtends(argv, i, c);
    }
  }

  /** One argument carrying a value: the category, bound or error it stands for is recorded. */
  method ReadValue(argv: seq<string>, i: nat, errors: seq<Problem>, selected: seq<Category>, ghost apply: bool, ghost dryRun: bool,
                   ghost json: bool, batchSize: Option<nat>, maxBatches: nat)
    returns (errors': seq<Problem>, selected': seq<Category>, batchSize': Option<nat>, maxBatches': nat)
    requires i < |argv| && Reading(argv[..i], errors, selected, apply, dryRun, json, batchSize, maxBatches)
    requires !IsSwitch(argv[i]) && !AsksForHelp(argv[i])
    requires 1 <= maxBatches <= DEFAULT_MAX_BATCHES && (batchSize.Some? ==> 1 <= batchSize.value <= MAX_BATCH_SIZE)
    ensures Reading(argv[..i + 1], errors', selected', apply, dryRun, json, batchSize', maxBatches')
    ensures 1 <= maxBatches' <= DEFAULT_MAX_BATCHES && (batchSize'.Some? ==> 1 <= batchSize'.value <= MAX_BATCH_SIZE)
  {
    var argument := argv[i];
    errors', selected', batchSize', maxBatches' := errors, selected, batchSize, maxBatches;
    FlagsDiffer(argument);
    if CATEGORY_FLAG <= argument {
      var category := FindCategory(Value(argument, CATEGORY_FLAG));
      if category.None? {
        errors' := errors + [UnknownCategory(Value(argument, CATEGORY_FLAG))];
      } else if category.value !in selected {
        selected' := selected + [category.value];
      }
      PickedCategory(Value(argument, CATEGORY_FLAG), category);
    } else if BATCH_SIZE_FLAG <= argument {
      batchSize', errors' := ParseBoundedInteger(Value(argument, BATCH_SIZE_FLAG), "--batch-size", MAX_BATCH_SIZE, errors);
    } else if MAX_BATCHES_FLAG <= argument {
      var parsed;
      parsed, errors' := ParseBoundedInteger(Value(argument, MAX_BATCHES_FLAG), "--max-batches", DEFAULT_MAX_BATCHES, errors);
      if parsed.Some? {
        maxBatches' := parsed.value;
      }
    } else {
      errors' := errors + [UnknownArgument(argument)];
    }
    ValueRead(argv, i, errors, errors', selected, selected', apply, dryRun, json, batchSize, batchSize', maxBatches, maxBatches');
  }

  /**
   * The parser. Help wins as soon as it is reached; otherwise every argument must be well formed
   * and the two modes exclude each other; then the result means what `Means` says.
   */
  method ParseRetentionArgs(argv: seq<string>) returns (r: Args)
    ensures r.Help? <==> exists i :: 0 <= i < |argv| && AsksForHelp(argv[i])
    ensures r.Run? <==>
              && (forall i :: 0 <= i < |argv| ==> !AsksForHelp(argv[i]) && ProblemOf(argv[i]).None?)
              && !("--apply" in argv && "--dry-run" in argv)
    ensures r.Run? ==> Means(argv, r)
    ensures r.Error? ==>
              r.problems == Problems(argv) + (if "--apply" in argv && "--dry-run" in argv then [ModesExclude] else [])
  {
    var errors: seq<Problem>, selected: seq<Category> := [], [];
    var apply, dryRun, json := false, false, false;
    var batchSize: Option<nat> := None;
    var maxBatches: nat := DEFAULT_MAX_BATCHES;
    ReadingStarts();
    for i := 0 to |argv|
      invariant forall k :: 0 <= k < i ==> !AsksForHelp(argv[k])
      invariant Reading(argv[..i], errors, selected, apply, dryRun, json, batchSize, maxBatches)
      invariant 1 <= maxBatches <= DEFAULT_MAX_BATCHES && (batchSize.Some? ==> 1 <= batchSize.value <= MAX_BATCH_SIZE)
    {
      if argv[i] == "--" {
        SwitchRead(argv, i, errors, selected, apply, dryRun, json, batchSize, maxBatches);
        continue;
      }
      if argv[i] == "--help" || argv[i] == "-h" {
        return Help;
      }
      if argv[i] == "--apply" {
        SwitchRead(argv, i, errors, selected, apply, dryRun, json, batchSize, maxBatches);
        apply := true;
        continue;
      }
      if argv[i] == "--dry-run" {
        SwitchRead(argv, i, errors, selected, apply, dryRun, json, batchSize, maxBatches);
        dryRun := true;
        continue;
      }
      if argv[i] == "--json" {
        SwitchRead(argv, i, errors, selected, apply, dryRun, json, batchSize, maxBatches);
        json := true;
        continue;
      }
      errors, selected, batchSize, maxBatches :=
        ReadValue(argv, i, errors, selected, apply, dryRun, json, batchSize, maxBatches);
    }
    assert argv[..|argv|] == argv;
    AllRead(argv, errors, selected, apply, dryRun, json, batchSize, maxBatches);
    r := Conclude(argv, errors, selected, apply, dryRun, json, batchSize, maxBatches);
  }

  lemma AllRead(argv: seq<string>, errors: seq<Problem>, selected: seq<Category>, apply: bool, dryRun: bool,
                json: bool, batchSize: Option<nat>, maxBatches: nat)
    requires Reading(argv, errors, selected, apply, dryRun, json, batchSize, maxBatches)
    ensures errors == Problems(argv)
    ensures (apply <==> "--apply" in argv) && (dryRun <==> "--dry-run" in argv)
    ensures errors == [] <==> forall i :: 0 <= i < |argv| ==> ProblemOf(argv[i]).None?
  {
    assert ReadSoFar(argv, errors, selected, apply, dryRun, json, batchSize, maxBatches);
    NoProblems(argv);
  }

  /** What is decided once every argument has been read. */
  method Conclude(argv: seq<string>, errors: seq<Problem>, selected: seq<Category>, apply: bool, dryRun: bool,
                  json: bool, batchSize: Option<nat>, maxBatches: nat)
    returns (r: Args)
    requires Reading(argv, errors, selected, apply, dryRun, json, batchSize, maxBatches)
    requires 1 <= maxBatches <= DEFAULT_MAX_BATCHES && (batchSize.Some? ==> 1 <= batchSize.value <= MAX_BATCH_SIZE)
    ensures !r.Help? && (r.Run? <==> errors == [] && !(apply && dryRun))
    ensures r.Run? ==> Means(argv, r)
    ensures r.Error? ==> r.problems == errors + (if apply && dryRun then [ModesExclude] else [])
  {
    var problems := errors;
    if apply && dryRun {
      problems := problems + [ModesExclude];
    }
    if problems != [] {
      return Error(problems);
    }
    var categories := FilterCatalog(selected);
    if selected == [] {
      categories := CATALOG;
    }
    EveryCategoryListed();
    assert ReadSoFar(argv, errors, selected, apply, dryRun, json, batchSize, maxBatches);
    assert BoundsRead(argv, batchSize, maxBatches);
    if selected != [] {
      assert Selected(argv, selected[0]);
    }
    r := Run(if apply then Apply else DryRun, categories, batchSize, maxBatches, json);
  }

  /** Only the category of that name answers to the name, and an unknown name answers to none. */
  lemma PickedCategory(name: string, found: Option<Category>)
    requires (found.Some? <==> Known(name)) && (found.Some? ==> Name(found.value) == name)
    ensures forall c :: name == Name(c) <==> found == Some(c)
  {
    EveryCategoryListed();
    forall c ensures name == Name(c) <==> found == Some(c) {
      if name == Name(c) {
        assert Known(name);
        NamesDiffer(c, found.value);
      }
    }
  }

  lemma EveryCategoryListed()
    ensures forall c: Category :: c in CATALOG
    ensures InCatalogOrder(CATALOG)
  {
    forall c: Category ensures c in CATALOG {
      assert CATALOG[Rank(c)] == c;
    }
  }

  // ---------------------------------------------------------------- the command

  /** The summary is that of the run the command line means, with its own batch size or the configured one. */
  ghost predicate CarriesOut(argv: seq<string>, plan: Args, configured: nat, t: Tables, s: Summary, w: Windows, now: Time)
    requires 1 <= configured
  {
    && plan.Run? && Means(argv, plan) && s.mode == plan.mode && |s.results| == |plan.categories|
    && var size := if plan.batchSize.Some? then plan.batchSize.value else configured;
       forall k :: 0 <= k < |s.results| ==> ResultCounts(t, plan.categories[k], plan.mode, size, plan.maxBatches, w, now, s.results[k])
  }

  lemma SummaryOfSelected(argv: seq<string>, plan: Args, configured: nat, t: Tables, s: Summary, w: Windows, now: Time)
    requires 1 <= configured && CarriesOut(argv, plan, configured, t, s, w, now)
    ensures forall i :: 0 <= i < |s.results| ==>
              (exists d :: d in CATALOG && Selected(argv, d)) ==> Selected(argv, s.results[i].category)
  {
    forall i | 0 <= i < |s.results| ensures s.results[i].category == plan.categories[i] {
      var size := if plan.batchSize.Some? then plan.batchSize.value else configured;
      assert ResultCounts(t, plan.categories[i], plan.mode, size, plan.maxBatches, w, now, s.results[i]);
    }
  }

  /**
   * The command an operator runs. Without a literal `--apply` the database does not change,
   * whatever else is written; with it, only rows that had expired by `now` go. The exit code is 2
   * for a rejected command line and 1 for a run in which a category failed.
   */
  method RetentionCommand(argv: seq<string>, x: Executor, configuredBatchSize: nat, w: Windows, now: Time)
    returns (exitCode: nat, summary: Option<Summary>, ghost plan: Args)
    requires Consistent(x.db.tables) && ValidWindows(w) && 1 <= configuredBatchSize
    modifies x.db
    ensures "--apply" !in argv || exitCode == 2 || summary.None? ==> x.db.tables == old(x.db.tables)
    ensures Consistent(x.db.tables) && SweptFrom(old(x.db.tables), x.db.tables, now)
    ensures exitCode == 2 <==>
              && (forall i :: 0 <= i < |argv| ==> !AsksForHelp(argv[i]))
              && ((exists i :: 0 <= i < |argv| && ProblemOf(argv[i]).Some?) || ("--apply" in argv && "--dry-run" in argv))
    ensures summary.Some? <==> exitCode != 2 && forall i :: 0 <= i < |argv| ==> !AsksForHelp(argv[i])
    ensures exitCode == 1 <==> summary.Some? && exists i :: 0 <= i < |summary.value.results| && summary.value.results[i].failed
    ensures summary.Some? ==> forall i :: 0 <= i < |summary.value.results| ==>
              (exists d :: d in CATALOG && Selected(argv, d)) ==> Selected(argv, summary.value.results[i].category)
    ensures OnlyDueGone(old(x.db.tables), x.db.tables, w, now)
    ensures summary.Some? ==> CarriesOut(argv, plan, configuredBatchSize, old(x.db.tables), summary.value, w, now)
  {
    exitCode, summary := 0, None;
    NothingGone(x.db.tables, w, now);
    var args := ParseRetentionArgs(argv);
    plan := args;
    match args {
      case Help =>
      case Error(_) => exitCode := 2;
      case Run(mode, categories, batchSize, maxBatches, json) =>
        var size := if batchSize.Some? then batchSize.value else configuredBatchSize;
        var s := x.RunRetentionCleanup(mode, categories, size, maxBatches, w, now);
        FailuresCounted(s.results);
        exitCode := if s.failedCategories > 0 then 1 else 0;
        summary := Some(s);
        SummaryOfSelected(argv, plan, configuredBatchSize, old(x.db.tables), s, w, now);
    }
  }

  lemma {:induction false} FailuresCounted(rs: seq<CategoryResult>)
    ensures CountFailed(rs) > 0 <==> exists i :: 0 <= i < |rs| && rs[i].failed
  {
    if rs != [] {
      var init := rs[..|rs| - 1];
      FailuresCounted(init);
      if i :| 0 <= i < |rs| && rs[i].failed {
        assert i < |init| ==> init[i].failed;
      }
      if i :| 0 <= i < |init| && init[i].failed {
        assert rs[i].failed;
      }
    }
  }
}
