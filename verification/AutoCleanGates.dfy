/** The gates in front of an unattended delete and the budget of one tick, in 64-bit arithmetic. */
module AutoCleanGates {
  import opened Options

  /** A clean absolute path, component by component. */
  type Path = seq<string>

  const MAX64 := 0x7FFF_FFFF_FFFF_FFFF
  const TWO63 := 0x8000_0000_0000_0000
  const TWO64 := 0x1_0000_0000_0000_0000
  const MIB := 0x10_0000
  const GIB := 0x4000_0000

  predicate IsInt64(x: int) {
    -TWO63 <= x <= MAX64
  }

  /** What is left of a result in a signed 64-bit register. */
  function Wrap(x: int): (r: int)
    ensures IsInt64(r)
    ensures IsInt64(x) ==> r == x
    ensures x >= 0 ==> r <= x
  {
    (x + TWO63) % TWO64 - TWO63
  }

  // ---- Suggestions and gates ----

  /** A number in a suggestion's evidence, as its encoder left it. A floating-point value and a
      string are given by what they convert to. */
  datatype Evidence =
    | EvInteger(n: int)
    | EvFloat(truncated: int)
    | EvString(asInteger: Option<int>, asFloat: Option<int>)

  datatype Suggestion = Suggestion(
    id: int, module_: string, target: Path, reason: string, sizeBytes: int,
    sizeEvidence: Option<Evidence>, idleEvidence: Option<Evidence>)

  datatype Config = Config(
    enabled: bool, riskAcknowledgedAt: string, modulesAllowed: seq<string>,
    minIdleDays: int, minSizeMB: int, sizeCapPerTickGB: int)

  datatype Action = Action(suggestionId: int, module_: string, target: Path, sizeBytes: int, idleDays: int)

  function SuggestionSize(s: Suggestion): int {
    if s.sizeBytes > 0 then s.sizeBytes
    else match s.sizeEvidence
      case None => 0
      case Some(EvInteger(n)) => n
      case Some(EvFloat(n)) => n
      case Some(EvString(Some(n), _)) => n
      case Some(EvString(None, Some(n))) => n
      case Some(EvString(None, None)) => 0
  }

  function SuggestionIdleDays(s: Suggestion): int {
    match s.idleEvidence
    case Some(EvInteger(n)) => n
    case Some(EvFloat(n)) => n
    case _ => 0
  }

  predicate SelfProving(module_: string) {
    module_ == "leaks" || module_ == "worktrees"
  }

  function ActionOf(s: Suggestion): Action {
    Action(s.id, s.module_, s.target, SuggestionSize(s), SuggestionIdleDays(s))
  }

  /** The first gate that blocks a suggestion. */
  function Blocked(s: Suggestion, cfg: Config): Option<string> {
    if !cfg.enabled then Some("not_enabled")
    else if cfg.riskAcknowledgedAt == "" then Some("risk_not_acknowledged")
    else if s.module_ !in cfg.modulesAllowed then Some("module_not_allowed")
    else if SelfProving(s.module_) then None
    else if SuggestionIdleDays(s) < cfg.minIdleDays then Some("idle_too_short")
    else if SuggestionSize(s) < Wrap(Wrap(cfg.minSizeMB * 1024) * 1024) then Some("size_too_small")
    else None
  }

  /** A suggestion passes exactly when auto-clean is enabled and acknowledged, its module is allowed,
      and it is idle and large enough or proves itself; the size threshold is the configured one if
      and only if that many bytes fit in 64 bits. */
  lemma PassesIff(s: Suggestion, cfg: Config)
    ensures Wrap(Wrap(cfg.minSizeMB * 1024) * 1024) == cfg.minSizeMB * MIB <==> IsInt64(cfg.minSizeMB * MIB)
    ensures IsInt64(cfg.minSizeMB * MIB) ==>
              (Blocked(s, cfg).None? <==>
               && cfg.enabled && cfg.riskAcknowledgedAt != "" && s.module_ in cfg.modulesAllowed
               && (s.module_ == "leaks" || s.module_ == "worktrees" ||
                   (SuggestionIdleDays(s) >= cfg.minIdleDays && SuggestionSize(s) >= cfg.minSizeMB * MIB)))
  {
    if IsInt64(cfg.minSizeMB * MIB) {
      assert Wrap(cfg.minSizeMB * 1024) == cfg.minSizeMB * 1024;
    }
  }

  /** What a suggestion declares: its own size if that is positive, otherwise what its evidence says, a
      string read as an integer before it is read as a number with a fraction; nothing is zero. */
  lemma DeclaredSize(s: Suggestion)
    ensures s.sizeBytes > 0 ==> SuggestionSize(s) == s.sizeBytes
    ensures s.sizeBytes <= 0 ==>
              && (s.sizeEvidence == None ==> SuggestionSize(s) == 0)
              && (forall n :: s.sizeEvidence in {Some(EvInteger(n)), Some(EvFloat(n)), Some(EvString(None, Some(n)))} ==> SuggestionSize(s) == n)
              && (forall n, f :: s.sizeEvidence == Some(EvString(Some(n), f)) ==> SuggestionSize(s) == n)
              && (s.sizeEvidence == Some(EvString(None, None)) ==> SuggestionSize(s) == 0)
    ensures (forall n :: s.idleEvidence in {Some(EvInteger(n)), Some(EvFloat(n))} ==> SuggestionIdleDays(s) == n)
    ensures s.idleEvidence.None? || s.idleEvidence.value.EvString? ==> SuggestionIdleDays(s) == 0
  {
  }

  /** The gate that is named is the first that does not hold. */
  lemma FirstGate(s: Suggestion, cfg: Config)
    ensures var selfProving := s.module_ in {"leaks", "worktrees"};
            Blocked(s, cfg) ==
            if !cfg.enabled then Some("not_enabled")
            else if cfg.riskAcknowledgedAt == "" then Some("risk_not_acknowledged")
            else if s.module_ !in cfg.modulesAllowed then Some("module_not_allowed")
            else if !selfProving && SuggestionIdleDays(s) < cfg.minIdleDays then Some("idle_too_short")
            else if !selfProving && SuggestionSize(s) < Wrap(cfg.minSizeMB * 1_048_576) then Some("size_too_small")
            else None
  {
    hide Wrap;
    WrapTwice(cfg.minSizeMB);
  }

  lemma WrapTwice(n: int)
    ensures Wrap(Wrap(n * 1024) * 1024) == Wrap(n * 1_048_576)
  {
    WrapIs(n * 1024);
    WrapIs(Wrap(n * 1024) * 1024);
    WrapIs(n * 1_048_576);
    var i :| Wrap(n * 1024) == n * 1024 + i * 18_446_744_073_709_551_616;
    var j :| Wrap(Wrap(n * 1024) * 1024) == Wrap(n * 1024) * 1024 + j * 18_446_744_073_709_551_616;
    var k :| Wrap(n * 1_048_576) == n * 1_048_576 + k * 18_446_744_073_709_551_616;
    assert Wrap(Wrap(n * 1024) * 1024) - Wrap(n * 1_048_576) == (i * 1024 + j - k) * 18_446_744_073_709_551_616;
  }

  /** A register holds the one number of 64 bits that differs by a multiple of two to the 64th. */
  lemma WrapIs(x: int)
    ensures -9_223_372_036_854_775_808 <= Wrap(x) <= 9_223_372_036_854_775_807
    ensures exists k :: Wrap(x) == x + k * 18_446_744_073_709_551_616
  {
    var k := -((x + TWO63) / TWO64);
    assert Wrap(x) == x + k * TWO64;
  }

  method ModuleAllowed(modules: seq<string>, m: string) returns (allowed: bool)
    ensures allowed <==> m in modules
  {
    for i := 0 to |modules|
      invariant m !in modules[..i]
    {
      if modules[i] == m {
        return true;
      }
    }
    return false;
  }

  method EvaluateSuggestion(s: Suggestion, cfg: Config) returns (a: Action, skip: Option<string>)
    ensures a == ActionOf(s) && skip == Blocked(s, cfg)
  {
    a := Action(s.id, s.module_, s.target, SuggestionSize(s), SuggestionIdleDays(s));
    if !cfg.enabled {
      return a, Some("not_enabled");
    }
    if cfg.riskAcknowledgedAt == "" {
      return a, Some("risk_not_acknowledged");
    }
    var allowed := ModuleAllowed(cfg.modulesAllowed, s.module_);
    if !allowed {
      return a, Some("module_not_allowed");
    }
    if !SelfProving(s.module_) {
      if a.idleDays < cfg.minIdleDays {
        return a, Some("idle_too_short");
      }
      var minBytes := Wrap(Wrap(cfg.minSizeMB * 1024) * 1024);
      if a.sizeBytes < minBytes {
        return a, Some("size_too_small");
      }
    }
    return a, None;
  }

  // ---- The budget ----

  function CapBytes(capGB: int): (cap: int)
    ensures IsInt64(cap)
  {
    if capGB < 0 then 0 else Wrap(Wrap(Wrap(capGB * 1024) * 1024) * 1024)
  }

  /** The cap is what the configuration says exactly when that many bytes fit in 64 bits. */
  lemma CapIsConfiguredIff(capGB: int)
    requires 0 <= capGB <= MAX64
    ensures CapBytes(capGB) == capGB * 1_073_741_824 <==> capGB * 1_073_741_824 <= MAX64
  {
    if capGB * GIB <= MAX64 {
      assert Wrap(capGB * 1024) == capGB * 1024;
      assert Wrap(capGB * 1024 * 1024) == capGB * 1024 * 1024;
    }
  }

  predicate Accepts(cap: int, used: int, bytes: int) {
    bytes >= 0 && Wrap(used + bytes) <= cap
  }

  class Budget {
    const capBytes: int
    var usedBytes: int

    constructor (capGB: int)
      ensures capBytes == CapBytes(capGB) && usedBytes == 0
    {
      var gb := capGB;
      if gb < 0 {
        gb := 0;
      }
      capBytes := Wrap(Wrap(Wrap(gb * 1024) * 1024) * 1024);
      usedBytes := 0;
    }

    method Take(bytes: int) returns (ok: bool)
      modifies this
      ensures ok == Accepts(capBytes, old(usedBytes), bytes)
      ensures usedBytes == if ok then Wrap(old(usedBytes) + bytes) else old(usedBytes)
    {
      if bytes < 0 {
        return false;
      }
      if Wrap(usedBytes + bytes) > capBytes {
        return false;
      }
      usedBytes := Wrap(usedBytes + bytes);
      return true;
    }
  }

  // ---- What a budget lets through ----

  function Sum(sizes: seq<int>): int {
    if sizes == [] then 0 else Sum(sizes[..|sizes| - 1]) + sizes[|sizes| - 1]
  }

  /** How many of these sizes the budget takes before it refuses one. */
  function Admitted(cap: int, used: int, sizes: seq<int>): (n: nat)
    ensures n <= |sizes|
    decreases |sizes|
  {
    if sizes == [] || !Accepts(cap, used, sizes[0]) then 0
    else 1 + Admitted(cap, Wrap(used + sizes[0]), sizes[1..])
  }

  /** How many a cap admits that counts without a limit on the size of numbers: all before the
      first that is negative or would pass the cap. */
  function WithinCap(cap: int, used: int, sizes: seq<int>): (n: nat)
    ensures n <= |sizes|
    decreases |sizes|
  {
    if sizes == [] || sizes[0] < 0 || used + sizes[0] > cap then 0
    else 1 + WithinCap(cap, used + sizes[0], sizes[1..])
  }

  lemma {:induction false} SumFront(x: int, rest: seq<int>)
    ensures Sum([x] + rest) == x + Sum(rest)
  {
    if rest == [] {
      assert [x] + rest == [x];
      assert [x][..0] == [];
    } else {
      var n := |rest| - 1;
      SumFront(x, rest[..n]);
      assert ([x] + rest)[..n + 1] == [x] + rest[..n];
    }
  }

  lemma NoSum(sizes: seq<int>)
    ensures Sum(sizes[..0]) == 0
  {
  }

  lemma SumOfFront(sizes: seq<int>, n: nat)
    requires n + 1 <= |sizes|
    ensures Sum(sizes[..n + 1]) == sizes[0] + Sum(sizes[1..][..n])
  {
    SumFront(sizes[0], sizes[1..][..n]);
    assert [sizes[0]] + sizes[1..][..n] == sizes[..n + 1];
  }

  lemma {:induction false} WithinCapFits(cap: int, used: int, sizes: seq<int>)
    ensures var n := WithinCap(cap, used, sizes);
            && (used <= cap ==> used + Sum(sizes[..n]) <= cap)
            && (forall k :: 0 <= k < n ==> sizes[k] >= 0)
            && (n < |sizes| ==> sizes[n] < 0 || used + Sum(sizes[..n]) + sizes[n] > cap)
    decreases |sizes|
  {
    if !(sizes == [] || sizes[0] < 0 || used + sizes[0] > cap) {
      WithinCapFits(cap, used + sizes[0], sizes[1..]);
      var n := WithinCap(cap, used + sizes[0], sizes[1..]);
      SumOfFront(sizes, n);
    } else {
      assert sizes[..0] == [];
    }
  }

  /** The first size that passes the cap does not pass 64 bits as well. */
  predicate StopIsRepresentable(cap: int, sizes: seq<int>) {
    var n := WithinCap(cap, 0, sizes);
    n < |sizes| && sizes[n] >= 0 ==> Sum(sizes[..n]) + sizes[n] <= MAX64
  }

  /** The budget admits exactly what the cap allows, if and only if the first sum past the cap still
      fits in 64 bits. Otherwise the sum wraps to a negative number, the charge is accepted, and
      what was admitted is past the cap. */
  lemma BudgetKeepsCapIff(cap: int, sizes: seq<int>)
    requires IsInt64(cap) && forall k :: 0 <= k < |sizes| ==> IsInt64(sizes[k])
    ensures Admitted(cap, 0, sizes) == WithinCap(cap, 0, sizes) <==> StopIsRepresentable(cap, sizes)
    ensures !StopIsRepresentable(cap, sizes) ==>
              Admitted(cap, 0, sizes) > WithinCap(cap, 0, sizes) && Sum(sizes[..WithinCap(cap, 0, sizes) + 1]) > MAX64 >= cap
  {
    AdmittedFrom(cap, 0, sizes);
    WithinCapFits(cap, 0, sizes);
    var n := WithinCap(cap, 0, sizes);
    if n < |sizes| {
      assert sizes[..n + 1] == sizes[..n] + [sizes[n]];
    }
  }

  lemma {:induction false} AdmittedFrom(cap: int, used: int, sizes: seq<int>)
    requires IsInt64(cap) && forall k :: 0 <= k < |sizes| ==> IsInt64(sizes[k])
    requires 0 <= used && (used <= cap || used == 0)
    ensures var n := WithinCap(cap, used, sizes);
            if n < |sizes| && sizes[n] >= 0 && used + Sum(sizes[..n]) + sizes[n] > MAX64
            then Admitted(cap, used, sizes) > n
            else Admitted(cap, used, sizes) == n
    decreases |sizes|
  {
    hide Wrap, Sum;
    if sizes == [] || sizes[0] < 0 {
    } else if used + sizes[0] > cap {
      AcceptsPast(cap, used, sizes[0]);
      assert Sum(sizes[..0]) == 0 by { NoSum(sizes); }
    } else {
      AcceptsWithin(cap, used, sizes[0]);
      AdmittedFrom(cap, used + sizes[0], sizes[1..]);
      var n := WithinCap(cap, used + sizes[0], sizes[1..]);
      SumOfFront(sizes, n);
    }
  }

  /** A charge past the cap is accepted only when the sum wraps. */
  lemma AcceptsPast(cap: int, used: int, x: int)
    requires IsInt64(cap) && IsInt64(x) && 0 <= used && (used <= cap || used == 0) && x >= 0 && used + x > cap
    ensures Accepts(cap, used, x) <==> used + x > MAX64
  {
    if used + x > MAX64 {
      assert Wrap(used + x) == used + x - TWO64;
    }
  }

  lemma AcceptsWithin(cap: int, used: int, x: int)
    requires IsInt64(cap) && 0 <= used && x >= 0 && used + x <= cap
    ensures Accepts(cap, used, x) && Wrap(used + x) == used + x
  {
  }

  /** With every size below 64 bits less the cap, sums cannot wrap and the cap is kept. */
  lemma SmallSizesKeepCap(cap: int, sizes: seq<int>)
    requires 0 <= cap <= MAX64 && forall k :: 0 <= k < |sizes| ==> -TWO63 <= sizes[k] <= MAX64 - cap
    ensures Admitted(cap, 0, sizes) == WithinCap(cap, 0, sizes)
    ensures 0 <= Sum(sizes[..Admitted(cap, 0, sizes)]) <= cap
  {
    WithinCapFits(cap, 0, sizes);
    BudgetKeepsCapIff(cap, sizes);
    SumNonNegative(sizes[..WithinCap(cap, 0, sizes)]);
  }

  /** A cap of zero or less refuses everything exactly when the first size is not zero: a charge of
      nothing is accepted by any budget. */
  lemma NoCapRefusesIff(capGB: int, sizes: seq<int>)
    requires capGB <= 0 && forall k :: 0 <= k < |sizes| ==> IsInt64(sizes[k])
    ensures Admitted(CapBytes(capGB), 0, sizes) == 0 <==> sizes == [] || sizes[0] != 0
  {
    assert CapBytes(capGB) == 0;
    if sizes != [] {
      assert Accepts(0, 0, sizes[0]) <==> sizes[0] == 0;
    }
  }

  lemma {:induction false} SumNonNegative(sizes: seq<int>)
    requires forall k :: 0 <= k < |sizes| ==> sizes[k] >= 0
    ensures Sum(sizes) >= 0
  {
    if sizes != [] {
      SumNonNegative(sizes[..|sizes| - 1]);
    }
  }
}
