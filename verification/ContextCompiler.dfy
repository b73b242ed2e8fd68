/** The compilation of an agent's context, and when all its metered sections stay within the budget. */
module ContextCompiler {
  import opened Common
  import opened TokenBudget
  import opened PackageLength

  datatype HistoryEvent = HistoryEvent(isResult: bool, summary: string)

  datatype Request = Request(description: string, role: string, constraints: seq<string>, memory: seq<string>,
                             history: seq<HistoryEvent>, package: Option<Package>)

  datatype Context = Context(task: string, goal: string, constraints: seq<string>, memory: seq<string>,
                             findings: seq<string>, package: Option<Payload>, files: map<string, string>)

  const GOAL_PREFIX: string := "Complete task: "
  const SMALLEST_SHARE: int := 64

  function Digits(n: nat): string {
    if n < 10 then ["0123456789"[n]] else Digits(n / 10) + Digits(n % 10)
  }

  function Decimal(n: int): string {
    if n < 0 then "-" + Digits(-n) else Digits(n)
  }

  /** Two constraints that are always there, and those of the repository. */
  function Constraints(r: Request, budget: int): seq<string> {
    ["Agent role: " + r.role, "Token budget: " + Decimal(budget)] + r.constraints
  }

  function Summaries(history: seq<HistoryEvent>): seq<string> {
    if history == [] then []
    else
      var rest, last := Summaries(history[..|history| - 1]), history[|history| - 1];
      if last.isResult then rest + [last.summary] else rest
  }

  // ----- the stages, each with what remains after it

  function Task(r: Request, budget: int): string {
    Trim(r.description, budget)
  }

  function Goal(r: Request, budget: int): string {
    Trim(GOAL_PREFIX + r.description, budget)
  }

  function AfterMandatory(r: Request, budget: int): int {
    budget - Estimate(Task(r, budget)) - Estimate(Goal(r, budget)) - Cost(Constraints(r, budget))
  }

  function Memory(r: Request, budget: int): Fitted {
    Fit(First(r.memory, 8), AfterMandatory(r, budget))
  }

  function Findings(r: Request, budget: int): Fitted {
    Fit(Summaries(First(r.history, 5)), Memory(r, budget).remaining)
  }

  /** The share of a package: a third of what remains, and at most a quarter of the whole budget. */
  function Share(remaining: int, budget: int): int {
    Min(Max(0, remaining / 3), Max(0, budget / 4))
  }

  datatype Packed = Packed(payload: Option<Payload>, constraints: seq<string>, files: map<string, string>,
      remaining: int)

  function PayloadFor(g: Package, size: Payload -> nat, remaining: int, budget: int): Option<Payload> {
    if Share(remaining, budget) >= SMALLEST_SHARE then Some(Compact(g, size, Share(remaining, budget))) else None
  }

  function PayloadCost(p: Option<Payload>, size: Payload -> nat): nat {
    if p.None? then 0 else size(p.value)
  }

  /** The constraint that names the package is added if it fits. */
  function Constrain(g: Package, constraints: seq<string>, remaining: int): (seq<string>, int) {
    if remaining >= Estimate(g.constraint) then (constraints + [g.constraint], remaining - Estimate(g.constraint))
    else (constraints, remaining)
  }

  function Pack(g: Package, size: Payload -> nat, constraints: seq<string>, remaining: int, budget: int): Packed {
    var payload := PayloadFor(g, size, remaining, budget);
    var (all, left) := Constrain(g, constraints, remaining - PayloadCost(payload, size));
    var kept := KeepExcerpts(g.excerpts, left);
    Packed(payload, all, kept.files, kept.remaining)
  }

  function PackAll(r: Request, printable: char -> bool, budget: int): Packed {
    var remaining := Findings(r, budget).remaining;
    if r.package.None? then Packed(None, Constraints(r, budget), map[], remaining)
    else
      var g := r.package.value;
      Pack(g, SizeOf(printable, g.header), Constraints(r, budget), remaining, budget)
  }

  /** The whole context; which characters are printable matters only for how long a package is. */
  function Compiled(r: Request, printable: char -> bool, budget: int): Context {
    var packed := PackAll(r, printable, budget);
    Context(Task(r, budget), Goal(r, budget), packed.constraints, Memory(r, budget).texts, Findings(r, budget).texts,
            packed.payload, packed.files)
  }

  method Compile(r: Request, printable: char -> bool, budget: int) returns (context: Context)
    ensures context == Compiled(r, printable, budget)
  {
    var task, goal := Trim(r.description, budget), Trim(GOAL_PREFIX + r.description, budget);
    var memory, findings, remaining := FitTexts(r, budget);
    var packed := PackRequest(r, printable, remaining, budget);
    context := Context(task, goal, packed.constraints, memory, findings, packed.payload, packed.files);
  }

  /** Charges the mandatory text, and then fits memory and findings. */
  method FitTexts(r: Request, budget: int) returns (memory: seq<string>, findings: seq<string>, remaining: int)
    ensures memory == Memory(r, budget).texts && Fitted(findings, remaining) == Findings(r, budget)
  {
    remaining := budget - Estimate(Trim(r.description, budget));
    remaining := remaining - Estimate(Trim(GOAL_PREFIX + r.description, budget));
    var mandatory := TotalOf(Constraints(r, budget));
    remaining := remaining - mandatory;
    memory, remaining := FitValues(First(r.memory, 8), remaining);
    findings, remaining := FitValues(Summaries(First(r.history, 5)), remaining);
  }

  method PackRequest(r: Request, printable: char -> bool, remaining: int, budget: int) returns (packed: Packed)
    requires remaining == Findings(r, budget).remaining
    ensures packed == PackAll(r, printable, budget)
  {
    packed := Packed(None, Constraints(r, budget), map[], remaining);
    if r.package.Some? {
      var g := r.package.value;
      packed := PackSections(g, SizeOf(printable, g.header), Constraints(r, budget), remaining, budget);
    }
  }

  method PackSections(g: Package, size: Payload -> nat, given: seq<string>, available: int, budget: int)
    returns (packed: Packed)
    ensures packed == Pack(g, size, given, available, budget)
  {
    var payload, constraints, remaining := None, given, available;
    var share := Min(Max(0, remaining / 3), Max(0, budget / 4));
    if share >= SMALLEST_SHARE {
      var p := CompactPackage(g, size, share);
      payload := Some(p);
      remaining := remaining - size(p);
    }
    if remaining >= Estimate(g.constraint) {
      constraints := constraints + [g.constraint];
      remaining := remaining - Estimate(g.constraint);
    }
    var files;
    files, remaining := KeepFilesOf(g.excerpts, remaining);
    packed := Packed(payload, constraints, files, remaining);
  }

  method TotalOf(texts: seq<string>) returns (total: nat)
    ensures total == Cost(texts)
  {
    total := 0;
    for n := 0 to |texts|
      invariant total == Cost(texts[..n])
    {
      assert texts[..n + 1][..n] == texts[..n];
      total := total + Estimate(texts[n]);
    }
    assert texts[..|texts|] == texts;
  }

  method KeepFilesOf(excerpts: seq<Excerpt>, budget: int) returns (files: map<string, string>, remaining: int)
    ensures files == KeepExcerpts(excerpts, budget).files && remaining == KeepExcerpts(excerpts, budget).remaining
  {
    files, remaining := map[], budget;
    var n := 0;
    while n < |excerpts| && remaining > 0
      invariant n <= |excerpts|
      invariant files == KeepExcerpts(excerpts[..n], budget).files &&
                remaining == KeepExcerpts(excerpts[..n], budget).remaining
    {
      assert excerpts[..n + 1][..n] == excerpts[..n];
      var content := Trim(excerpts[n].content, remaining);
      files := files[excerpts[n].key := content];
      remaining := remaining - Estimate(content);
      n := n + 1;
    }
    NothingAfterTheEnd(excerpts, n, budget);
  }

  lemma {:induction false} NothingAfterTheEnd(excerpts: seq<Excerpt>, n: nat, budget: int)
    requires n <= |excerpts| && (n == |excerpts| || KeepExcerpts(excerpts[..n], budget).remaining <= 0)
    ensures KeepExcerpts(excerpts, budget) == KeepExcerpts(excerpts[..n], budget)
  {
    if n == |excerpts| {
      assert excerpts[..n] == excerpts;
    } else {
      var front := excerpts[..|excerpts| - 1];
      assert front[..n] == excerpts[..n];
      NothingAfterTheEnd(front, n, budget);
    }
  }

  // ----- the budget

  /** The sections whose size is metered. */
  ghost function Metered(r: Request, c: Context, printable: char -> bool): int {
    Estimate(c.task) + Estimate(c.goal) + Cost(c.constraints) + Cost(c.memory) + Cost(c.findings) + MapCost(c.files) +
    (if r.package.None? then 0 else PayloadCost(c.package, SizeOf(printable, r.package.value.header)))
  }

  /** What a caller can check: the bare header of a package that gets a share is no larger than what remains for it. */
  predicate HeaderFits(r: Request, printable: char -> bool, budget: int) {
    var remaining := Findings(r, budget).remaining;
    r.package.Some? && Share(remaining, budget) >= SMALLEST_SHARE ==>
      SizeOf(printable, r.package.value.header)(HEADER) <= remaining
  }

  lemma TextSections(r: Request, budget: int)
    ensures var left := Findings(r, budget).remaining;
            && left == AfterMandatory(r, budget) - Cost(Memory(r, budget).texts) - Cost(Findings(r, budget).texts)
            && (AfterMandatory(r, budget) >= 0 <==> left >= 0)
            && (AfterMandatory(r, budget) <= 0 ==>
                left == AfterMandatory(r, budget) && Memory(r, budget).texts == [] == Findings(r, budget).texts)
  {
    FitConserves(First(r.memory, 8), AfterMandatory(r, budget));
    FitConserves(Summaries(First(r.history, 5)), Memory(r, budget).remaining);
  }

  /** Packing never spends more than it is charged for, and overdraws exactly when the payload does. */
  lemma PackSpends(g: Package, size: Payload -> nat, constraints: seq<string>, remaining: int, budget: int)
    ensures var k := Pack(g, size, constraints, remaining, budget);
            var spent := PayloadCost(k.payload, size) + Cost(k.constraints) - Cost(constraints) + MapCost(k.files);
            && spent <= remaining - k.remaining
            && (k.remaining >= 0 <==> PayloadCost(k.payload, size) <= remaining)
            && (k.remaining < 0 ==> spent == remaining - k.remaining)
  {
    SpendRest(g, constraints, remaining - PayloadCost(PayloadFor(g, size, remaining, budget), size));
  }

  lemma SpendRest(g: Package, constraints: seq<string>, left: int)
    ensures var (all, rest) := Constrain(g, constraints, left);
            var kept := KeepExcerpts(g.excerpts, rest);
            var spent := Cost(all) - Cost(constraints) + MapCost(kept.files);
            && spent <= left - kept.remaining
            && (kept.remaining >= 0 <==> left >= 0)
            && (kept.remaining < 0 ==> spent == left - kept.remaining)
  {
    CostOfOneMore(constraints, g.constraint);
    ExcerptsConserve(g.excerpts, Constrain(g, constraints, left).1);
  }

  lemma PayloadFits(g: Package, size: Payload -> nat, remaining: int, budget: int)
    requires HeaderIsSmallest(size)
    ensures PayloadCost(PayloadFor(g, size, remaining, budget), size) <= remaining <==>
            (if Share(remaining, budget) >= SMALLEST_SHARE then size(HEADER) <= remaining else remaining >= 0)
  {
    if Share(remaining, budget) >= SMALLEST_SHARE {
      CompactFits(g, size, Share(remaining, budget));
    }
  }

  /**
   What packing spends stays within what remained exactly if that was not negative and the bare
   header fits a share.
   */
  lemma PackWithin(g: Package, size: Payload -> nat, constraints: seq<string>, remaining: int, budget: int)
    requires HeaderIsSmallest(size)
    ensures var k := Pack(g, size, constraints, remaining, budget);
            var spent := PayloadCost(k.payload, size) + Cost(k.constraints) - Cost(constraints) + MapCost(k.files);
            spent <= remaining <==>
            remaining >= 0 && (Share(remaining, budget) >= SMALLEST_SHARE ==> size(HEADER) <= remaining)
  {
    PackSpends(g, size, constraints, remaining, budget);
    PayloadFits(g, size, remaining, budget);
  }

  /**
   The metered sections stay within the token budget exactly when the mandatory text does and the
   bare header of a package that gets a share fits what remains for it.
   */
  lemma WithinBudgetIff(r: Request, printable: char -> bool, budget: int)
    ensures Metered(r, Compiled(r, printable, budget), printable) <= budget <==>
            AfterMandatory(r, budget) >= 0 && HeaderFits(r, printable, budget)
  {
    TextSections(r, budget);
    if r.package.Some? {
      var g := r.package.value;
      BareHeaderIsSmallest(printable, g.header);
      PackWithin(g, SizeOf(printable, g.header), Constraints(r, budget), Findings(r, budget).remaining, budget);
    }
  }

  /** A package with hashes as the engine makes them, whose reason is written with at most 450 characters. */
  predicate ShortReason(printable: char -> bool, h: Header) {
    IsHexHash(h.packageHash) && IsHexHash(h.graphHash) && Quoted(printable, h.reason) <= 450
  }

  lemma ShortHeaderFits(printable: char -> bool, h: Header)
    requires ShortReason(printable, h)
    ensures SizeOf(printable, h)(HEADER) <= 192
  {
    BareLength(printable, h);
  }

  /** Such a header fits wherever a package gets a share at all, so only mandatory text can exceed the budget. */
  lemma ShortReasonsStayWithinBudget(r: Request, printable: char -> bool, budget: int)
    requires r.package.Some? ==> ShortReason(printable, r.package.value.header)
    ensures HeaderFits(r, printable, budget)
    ensures Metered(r, Compiled(r, printable, budget), printable) <= budget <==> AfterMandatory(r, budget) >= 0
  {
    if r.package.Some? {
      ShortHeaderFits(printable, r.package.value.header);
    }
    WithinBudgetIff(r, printable, budget);
  }

  /** A reason of at most a hundred characters that are printable, or below U+0100, is such a reason. */
  lemma OrdinaryReasonsAreShort(printable: char -> bool, h: Header)
    requires IsHexHash(h.packageHash) && IsHexHash(h.graphHash) && |h.reason| <= 100
    requires forall i :: 0 <= i < |h.reason| ==> printable(h.reason[i]) || h.reason[i] as int < 0x100
    ensures ShortReason(printable, h)
  {
    forall i | 0 <= i < |h.reason| ensures Width(printable, h.reason[i]) <= 4 {
    }
    EscapedAtMost(printable, h.reason, Delimiter(h.reason), 4);
  }

  /** The reasons that the orchestrator and the briefing service give. */
  const PROGRAM_REASONS: set<string> := {"initial_briefing", "task_execution", "recovery_context_expansion"}

  /** With the reasons the program itself gives, the budget is kept exactly when the mandatory text fits. */
  lemma ProgramStaysWithinBudget(r: Request, printable: char -> bool, budget: int)
    requires r.package.Some? ==>
               var h := r.package.value.header;
               h.reason in PROGRAM_REASONS && IsHexHash(h.packageHash) && IsHexHash(h.graphHash)
    ensures Metered(r, Compiled(r, printable, budget), printable) <= budget <==> AfterMandatory(r, budget) >= 0
  {
    if r.package.Some? {
      OrdinaryReasonsAreShort(printable, r.package.value.header);
    }
    ShortReasonsStayWithinBudget(r, printable, budget);
  }

  lemma NoRoomNoPackage(g: Package, size: Payload -> nat, constraints: seq<string>, remaining: int, budget: int)
    requires remaining <= 0
    ensures Pack(g, size, constraints, remaining, budget) == Packed(None, constraints, map[], remaining)
  {
    ExcerptsConserve(g.excerpts, remaining);
  }

  /** If the mandatory text uses up the whole budget, no optional section is included. */
  lemma NoRoomNoExtras(r: Request, printable: char -> bool, budget: int)
    requires AfterMandatory(r, budget) <= 0
    ensures var c := Compiled(r, printable, budget);
            && c.memory == [] && c.findings == [] && c.package.None? && c.files == map[]
            && c.constraints == Constraints(r, budget)
  {
    TextSections(r, budget);
    if r.package.Some? {
      var g := r.package.value;
      NoRoomNoPackage(g, SizeOf(printable, g.header), Constraints(r, budget), Findings(r, budget).remaining, budget);
    }
  }

  lemma CostOfTwo(a: string, b: string)
    ensures Cost([a, b]) == Estimate(a) + Estimate(b)
  {
    assert [a, b] == [a] + [b] && [a] == [] + [a];
    CostOfOneMore([a], b);
    CostOfOneMore([], a);
  }

  /** What is mandatory for the role "coder" when the repository adds no constraint. */
  lemma MandatoryOf(r: Request, budget: int)
    requires r.role == "coder" && r.constraints == []
    ensures AfterMandatory(r, budget) ==
            budget - Estimate(Task(r, budget)) - Estimate(Goal(r, budget)) - 5 -
            Estimate("Token budget: " + Decimal(budget))
  {
    CostOfTwo("Agent role: " + r.role, "Token budget: " + Decimal(budget));
    assert Constraints(r, budget) == ["Agent role: " + r.role, "Token budget: " + Decimal(budget)];
    assert |"Agent role: "| == 12 && |"coder"| == 5;
  }

  /**
   The mandatory text alone can exceed the budget: task and goal are each allowed all of it, and
   constraints are not trimmed.
   */
  lemma MandatoryCanOverrun(printable: char -> bool)
    ensures var r := Request("abcd", "coder", [], [], [], None);
            Metered(r, Compiled(r, printable, 8), printable) > 8
  {
    var r := Request("abcd", "coder", [], [], [], None);
    MandatoryOf(r, 8);
    assert AfterMandatory(r, 8) < 0;
    WithinBudgetIff(r, printable, 8);
  }

  const ODD: char := '\U{10FFFF}'

  /** A reason of a hundred characters that are each written as ten. */
  function OddReason(): string {
    seq(100, _ => ODD)
  }

  lemma OddReasonLength(printable: char -> bool)
    requires !printable(ODD)
    ensures Quoted(printable, OddReason()) == 1002
  {
    forall i | 0 <= i < 100 ensures Width(printable, OddReason()[i]) == 10 && OddReason()[i] != '\'' {
    }
    EscapedExactly(printable, OddReason(), 10);
  }

  /**
   A package can exceed the budget: with a reason of a hundred characters that are not printable, the
   bare header costs 330 tokens, and 245 remain of 260 when the package gets its share.
   */
  lemma HeaderCanOverrun(printable: char -> bool, g: Package)
    requires !printable(ODD) && IsHexHash(g.header.packageHash) && IsHexHash(g.header.graphHash)
    requires g.header.reason == OddReason()
    ensures var r := Request("", "coder", [], [], [], Some(g));
            AfterMandatory(r, 260) == 245 && Metered(r, Compiled(r, printable, 260), printable) > 260
  {
    var r := Request("", "coder", [], [], [], Some(g));
    RoomFor260(r);
    OddReasonLength(printable);
    BareLength(printable, g.header);
    WithinBudgetIff(r, printable, 260);
  }

  lemma RoomFor260(r: Request)
    requires r.description == "" && r.role == "coder" && r.constraints == [] && r.memory == [] && r.history == []
    ensures AfterMandatory(r, 260) == 245 && Findings(r, 260).remaining == 245
  {
    MandatoryOf(r, 260);
    assert Digits(2) == "2" && Digits(26) == Digits(2) + "6" && Digits(260) == Digits(26) + "0";
    assert |"Token budget: "| == 14 && |GOAL_PREFIX| == 15 && GOAL_PREFIX + "" == GOAL_PREFIX;
    assert First(r.memory, 8) == [] && Summaries(First(r.history, 5)) == [];
  }
}
