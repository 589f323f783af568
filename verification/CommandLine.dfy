/** The retention command line as it is typed: its literal flags and category names, and its numbers in print. */
module CommandLine {
  import opened Kernel
  import opened RetentionPolicy
  import opened RetentionExecutor
  import opened RetentionCli

  // ---------------------------------------------------------------- numbers

  function Zeros(z: nat): string {
    seq(z, _ => '0')
  }

  predicate Digits(s: string) {
    forall i :: 0 <= i < |s| ==> '0' <= s[i] <= '9'
  }

  lemma DigitReads(d: nat)
    requires d < 10
    ensures '0' <= Digit(d) <= '9' && (Digit(d) - '0') as nat == d
  {
  }

  /** One more digit. */
  lemma NumberSnoc(s: string, d: nat)
    requires Digits(s) && d < 10
    ensures Digits(s + [Digit(d)]) && Number(s + [Digit(d)]) == 10 * Number(s) + d
  {
    DigitReads(d);
    assert (s + [Digit(d)])[..|s|] == s;
  }

  /** Reading a printed number, with any leading zeros, gives it back. */
  lemma {:induction false} ReadsWhatIsPrinted(z: nat, n: nat)
    ensures Digits(Zeros(z) + Decimal(n)) && Number(Zeros(z) + Decimal(n)) == n
    decreases n
  {
    if n < 10 {
      ZerosAreNothing(z);
      NumberSnoc(Zeros(z), n);
    } else {
      ReadsWhatIsPrinted(z, n / 10);
      NumberSnoc(Zeros(z) + Decimal(n / 10), n % 10);
      assert Zeros(z) + Decimal(n) == Zeros(z) + Decimal(n / 10) + [Digit(n % 10)];
    }
  }

  lemma {:induction false} ZerosAreNothing(z: nat)
    ensures Number(Zeros(z)) == 0
  {
    if z > 0 {
      assert Zeros(z)[..z - 1] == Zeros(z - 1);
      ZerosAreNothing(z - 1);
    }
  }

  /** Some zeros, then the number in print; zero itself is only zeros. */
  predicate Printed(s: string, z: nat, n: nat) {
    s == if n == 0 then Zeros(z) else Zeros(z) + Decimal(n)
  }

  lemma DecimalSnoc(m: nat, d: nat)
    requires m > 0 && d < 10
    ensures Decimal(10 * m + d) == Decimal(m) + [Digit(d)]
  {
    assert (10 * m + d) / 10 == m && (10 * m + d) % 10 == d;
  }

  lemma AppendDigit(s: string, z: nat, m: nat, d: nat)
    requires Printed(s, z, m) && d < 10
    ensures Printed(s + [Digit(d)], if m == 0 && d == 0 then z + 1 else z, 10 * m + d)
  {
    if m > 0 {
      DecimalSnoc(m, d);
    } else if d == 0 {
      assert Zeros(z) + ['0'] == Zeros(z + 1);
    } else {
      assert Decimal(d) == [Digit(d)];
    }
  }

  /** Every string of digits is a printed number behind some zeros. */
  lemma {:induction false} EveryNumberIsPrinted(s: string) returns (z: nat)
    requires Digits(s)
    ensures Printed(s, z, Number(s))
    decreases |s|
  {
    z := 0;
    if s != [] {
      var init, last := s[..|s| - 1], s[|s| - 1];
      var d := (last - '0') as nat;
      DigitPrints(last);
      assert s == init + [Digit(d)];
      z := EveryNumberIsPrinted(init);
      AppendDigit(init, z, Number(init), d);
      NumberSnoc(init, d);
      z := if Number(init) == 0 && d == 0 then z + 1 else z;
    }
  }

  lemma DigitPrints(c: char)
    requires '0' <= c <= '9'
    ensures Digit((c - '0') as nat) == c
  {
  }

  /** A bound is accepted exactly if it is the printed form of a number in range, behind any zeros. */
  lemma BoundedIffPrinted(raw: string, max: nat, n: nat)
    ensures Bounded(raw, max) == Some(n) <==> 1 <= n <= max && exists z: nat :: raw == Zeros(z) + Decimal(n)
  {
    if Bounded(raw, max) == Some(n) {
      var z := EveryNumberIsPrinted(raw);
      assert Printed(raw, z, n);
    }
    if 1 <= n <= max && exists z: nat :: raw == Zeros(z) + Decimal(n) {
      var z: nat :| raw == Zeros(z) + Decimal(n);
      ReadsWhatIsPrinted(z, n);
    }
  }

  // ---------------------------------------------------------------- flags

  /** The argument that names the category was given. */
  predicate Named(argv: seq<string>, c: Category) {
    match c
    case SecurityEvents => "--category=" + "security_events" in argv
    case ExpiredRefreshTokens => "--category=" + "expired_refresh_tokens" in argv
    case ExpiredSessions => "--category=" + "expired_sessions" in argv
    case ExpiredVerificationTokens => "--category=" + "expired_email_verification_tokens" in argv
    case ExpiredResetTokens => "--category=" + "expired_password_reset_tokens" in argv
    case ExpiredPendings => "--category=" + "expired_pending_registrations" in argv
  }

  /** The last argument that starts with the flag. */
  predicate LastWith(argv: seq<string>, i: int, flag: string) {
    0 <= i < |argv| && flag <= argv[i] && forall j :: i < j < |argv| ==> !(flag <= argv[j])
  }

  lemma SelectedIsNamed(argv: seq<string>, c: Category)
    ensures Selected(argv, c) <==> Named(argv, c)
  {
  }

  lemma CatalogHasAll(c: Category)
    ensures c in CATALOG
  {
    assert CATALOG[Rank(c)] == c;
  }

  /** An accepted command line runs the categories it names, in catalog order, or all six if it names none. */
  lemma CategoriesAreNamed(argv: seq<string>, r: Args)
    requires r.Run? && Means(argv, r)
    ensures forall c :: c in r.categories <==> Named(argv, c) || forall d :: !Named(argv, d)
    ensures InCatalogOrder(r.categories)
  {
    forall c ensures c in CATALOG && (Selected(argv, c) <==> Named(argv, c)) {
      CatalogHasAll(c);
      SelectedIsNamed(argv, c);
    }
  }

  /** The argument is the flag, any zeros, and the number in print. */
  ghost predicate Prints(argument: string, flag: string, n: nat) {
    flag <= argument && exists z: nat :: argument[|flag|..] == Zeros(z) + Decimal(n)
  }

  lemma LastValueIsPrinted(argv: seq<string>, flag: string, max: nat, n: nat, i: int)
    requires LastValue(argv, flag, max, Some(n)) && LastWith(argv, i, flag)
    ensures 1 <= n <= max && Prints(argv[i], flag, n)
  {
    var k :| DecidedBy(argv, k, flag, max, n);
    assert k == i;
    BoundedIffPrinted(Value(argv[i], flag), max, n);
  }

  /** Without the flag there is no value, and with it the last one counts. */
  lemma LastValueExists(argv: seq<string>, flag: string, max: nat, v: Option<nat>)
    requires LastValue(argv, flag, max, v)
    ensures v.Some? <==> exists i :: LastWith(argv, i, flag)
  {
    if v.Some? {
      var k :| DecidedBy(argv, k, flag, max, v.value);
      assert LastWith(argv, k, flag);
    }
  }

  /** The batch size is the number printed in the last `--batch-size=`, up to 50 000; without one there is none. */
  lemma BatchSizeIsLiteral(argv: seq<string>, r: Args)
    requires r.Run? && Means(argv, r)
    ensures r.batchSize.Some? <==> exists i :: LastWith(argv, i, "--batch-size=")
    ensures forall i :: LastWith(argv, i, "--batch-size=") ==>
              r.batchSize.Some? && 1 <= r.batchSize.value <= 50_000 && Prints(argv[i], "--batch-size=", r.batchSize.value)
  {
    LastValueExists(argv, "--batch-size=", 50_000, r.batchSize);
    forall i | LastWith(argv, i, "--batch-size=")
      ensures r.batchSize.Some? && 1 <= r.batchSize.value <= 50_000 && Prints(argv[i], "--batch-size=", r.batchSize.value)
    {
      LastValueIsPrinted(argv, "--batch-size=", 50_000, r.batchSize.value, i);
    }
  }

  /** The number of batches is the one printed in the last `--max-batches=`, up to 1000; without one it is 1000. */
  lemma MaxBatchesAreLiteral(argv: seq<string>, r: Args)
    requires r.Run? && Means(argv, r)
    ensures (forall i :: !LastWith(argv, i, "--max-batches=")) ==> r.maxBatches == 1_000
    ensures forall i :: LastWith(argv, i, "--max-batches=") ==> 1 <= r.maxBatches <= 1_000 && Prints(argv[i], "--max-batches=", r.maxBatches)
  {
    if LastValue(argv, "--max-batches=", 1_000, Some(r.maxBatches)) {
      LastValueExists(argv, "--max-batches=", 1_000, Some(r.maxBatches));
      forall i | LastWith(argv, i, "--max-batches=") ensures 1 <= r.maxBatches <= 1_000 && Prints(argv[i], "--max-batches=", r.maxBatches) {
        LastValueIsPrinted(argv, "--max-batches=", 1_000, r.maxBatches, i);
      }
    } else {
      LastValueExists(argv, "--max-batches=", 1_000, None);
    }
  }

  predicate IsFlag(argument: string) {
    argument == "--" || argument == "--apply" || argument == "--dry-run" || argument == "--json" || argument == "--help" || argument == "-h"
  }

  lemma CategoryArgument(argument: string)
    ensures CATEGORY_FLAG <= argument && Known(Value(argument, CATEGORY_FLAG)) <==> exists c :: Named([argument], c)
  {
    if CATEGORY_FLAG <= argument && Known(Value(argument, CATEGORY_FLAG)) {
      var c :| c in CATALOG && Name(c) == Value(argument, CATEGORY_FLAG);
      assert argument == CATEGORY_FLAG + Name(c);
      SelectedIsNamed([argument], c);
    }
    if c :| Named([argument], c) {
      SelectedIsNamed([argument], c);
      CatalogHasAll(c);
      assert Value(argument, CATEGORY_FLAG) == Name(c);
    }
  }

  lemma BoundArgument(argument: string, flag: string, max: nat)
    ensures flag <= argument && Bounded(Value(argument, flag), max).Some? <==> exists n: nat :: 1 <= n <= max && Prints(argument, flag, n)
  {
    if flag <= argument && Bounded(Value(argument, flag), max).Some? {
      BoundedIffPrinted(Value(argument, flag), max, Bounded(Value(argument, flag), max).value);
      assert Prints(argument, flag, Bounded(Value(argument, flag), max).value);
    }
    if n: nat :| 1 <= n <= max && Prints(argument, flag, n) {
      BoundedIffPrinted(Value(argument, flag), max, n);
    }
  }

  /** Exactly these arguments cause no error. */
  lemma WellFormedIff(argument: string)
    ensures ProblemOf(argument).None? <==>
              || IsFlag(argument) || (exists c :: Named([argument], c))
              || (exists n: nat :: 1 <= n <= 50_000 && Prints(argument, "--batch-size=", n))
              || (exists n: nat :: 1 <= n <= 1_000 && Prints(argument, "--max-batches=", n))
  {
    FlagsDiffer(argument);
    CategoryArgument(argument);
    BoundArgument(argument, "--batch-size=", 50_000);
    BoundArgument(argument, "--max-batches=", 1_000);
  }
}
