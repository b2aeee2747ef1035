/**
 The control-flow-integrity counter of the fault-injection hardening library: the call trees that
 the FIH_CALL, FIH_RET and FIH_CFI_STEP macros build, and what the checks on the global counter
 let through.
 */
module FihCfi {
  import opened FihInt
  import opened Words
  import opened Wrappers

  type Byte = n: int | 0 <= n < 256

  // The counter actions of one run of a function, in order. Call is FIH_CALL around the actions of
  // the callee; Dec is fih_cfi_decrement, which FIH_RET and FIH_CFI_STEP_DECREMENT both are; Steps
  // is FIH_CFI_STEP_INIT and the actions that follow it, up to FIH_CFI_STEP_ERR_RESET if `reset`.
  datatype Cmd = Call(body: Code) | Dec | Steps(count: Byte, body: Code, reset: bool)
  datatype Code = Done | Seq(head: Cmd, tail: Code)

  // The int32_t sum of the counter and a step count, wrapped around.
  function Wrap(x: int): Int32
    requires -0x8000_0000 <= x < 0x1_0000_0000
  {
    if x < HALF then x else x - WORD
  }

  // fih_cfi_get_and_increment: the saved counter and the new one.
  function GetAndIncrement(ctr: Fih, cnt: Byte): Outcome<(Fih, Fih)> {
    match Decode(ctr)
    case Panic(c) => Panic(c)
    case Ok(k) =>
      if k < 0 then Panic(Negative)
      else if k > Wrap(k + cnt) then Panic(Overflow)
      else Ok((ctr, Encode(Wrap(k + cnt))))
  }

  // fih_cfi_validate
  function Validate(saved: Fih, ctr: Fih): Outcome<Fih> {
    match Eq(saved, ctr)
    case Panic(c) => Panic(c)
    case Ok(rc) => if rc != FIH_TRUE then Panic(Unbalanced) else Ok(ctr)
  }

  // fih_cfi_decrement
  function Decrement(ctr: Fih): Outcome<Fih> {
    match Decode(ctr)
    case Panic(c) => Panic(c)
    case Ok(k) => if k < 1 then Panic(Underflow) else Ok(Encode(k - 1))
  }

  // A whole tree on the masked counter, every panic ending the run.
  function Exec(code: Code, ctr: Fih): Outcome<Fih> {
    match code
    case Done => Ok(ctr)
    case Seq(c, rest) =>
      match ExecCmd(c, ctr)
      case Panic(p) => Panic(p)
      case Ok(next) => Exec(rest, next)
  }

  function ExecCmd(c: Cmd, ctr: Fih): Outcome<Fih> {
    match c
    case Dec => Decrement(ctr)
    case Call(body) =>
      (match GetAndIncrement(ctr, 1)
       case Panic(p) => Panic(p)
       case Ok((saved, up)) =>
         match Exec(body, up)
         case Panic(p) => Panic(p)
         case Ok(after) => Validate(saved, after))
    case Steps(n, body, reset) =>
      (match GetAndIncrement(ctr, n)
       case Panic(p) => Panic(p)
       case Ok((saved, up)) =>
         match Exec(body, up)
         case Panic(p) => Panic(p)
         case Ok(after) =>
           if !reset then Ok(after)
           else if Valid(saved) then Ok(saved)
           else Panic(Tampered))
  }

  // The global counter and the functions that change it. A panic leaves the run in its answer.
  class Counter {
    var ctr: Fih

    constructor ()
      ensures ctr == Encode(0)
    {
      ctr := Encode(0);
    }

    method Increment(cnt: Byte) returns (r: Outcome<Fih>)
      modifies this
      ensures match GetAndIncrement(old(ctr), cnt)
              case Ok((saved, up)) => r == Ok(saved) && ctr == up
              case Panic(p) => r == Panic(p)
    {
      hide Masked;
      var saved := ctr;
      if !Valid(ctr) {
        return Panic(Tampered);
      }
      if ctr.val < 0 {
        return Panic(Negative);
      }
      if ctr.val > Wrap(ctr.val + cnt) {
        return Panic(Overflow);
      }
      ctr := Encode(Wrap(ctr.val + cnt));
      MaskedTwice(ctr.val);
      if !Valid(ctr) || !Valid(saved) {
        return Panic(Tampered);
      }
      return Ok(saved);
    }

    method Check(saved: Fih) returns (r: Outcome<Fih>)
      ensures r == Validate(saved, ctr)
    {
      var rc := Eq(saved, ctr);
      if rc.Panic? {
        return Panic(rc.check);
      }
      if rc.value != FIH_TRUE {
        return Panic(Unbalanced);
      }
      return Ok(ctr);
    }

    method Decr() returns (r: Outcome<Fih>)
      modifies this
      ensures r == Decrement(old(ctr))
      ensures r.Ok? ==> ctr == r.value
    {
      hide Masked;
      if !Valid(ctr) {
        return Panic(Tampered);
      }
      if ctr.val < 1 {
        return Panic(Underflow);
      }
      ctr := Encode(ctr.val - 1);
      MaskedTwice(ctr.val);
      if !Valid(ctr) {
        return Panic(Tampered);
      }
      return Ok(ctr);
    }

    // Running a tree on the live counter is Exec.
    method Execute(code: Code) returns (r: Outcome<Fih>)
      modifies this
      ensures r == Exec(code, old(ctr))
      ensures r.Ok? ==> ctr == r.value
      decreases code
    {
      hide Masked;
      hide GetAndIncrement, Validate, Decrement;
      match code
      case Done =>
        r := Ok(ctr);
      case Seq(c, rest) =>
        r := ExecuteCmd(c);
        if r.Ok? {
          r := Execute(rest);
        }
    }

    method ExecuteCmd(c: Cmd) returns (r: Outcome<Fih>)
      modifies this
      ensures r == ExecCmd(c, old(ctr))
      ensures r.Ok? ==> ctr == r.value
      decreases c
    {
      hide Masked;
      hide GetAndIncrement, Decrement, Valid, Encode, Decode, Eq;
      match c
      case Dec =>
        r := Decr();
      case Call(body) =>
        r := Increment(1);
        if r.Ok? {
          var saved := r.value;
          r := Execute(body);
          if r.Ok? {
            r := Check(saved);
          }
        }
      case Steps(n, body, reset) =>
        r := Increment(n);
        if r.Ok? {
          var saved := r.value;
          r := Execute(body);
          if r.Ok? && reset {
            ctr := saved;
            r := if Valid(ctr) then Ok(ctr) else Panic(Tampered);
          }
        }
    }
  }

  // ---------------------------------------------------------------- measures of a tree

  // The net change a tree makes to the counter when every check in it passes.
  function Delta(code: Code): int {
    match code
    case Done => 0
    case Seq(c, rest) => DeltaCmd(c) + Delta(rest)
  }

  function DeltaCmd(c: Cmd): int {
    match c
    case Call(_) => 0
    case Dec => -1
    case Steps(n, body, reset) => if reset then 0 else n + Delta(body)
  }

  // Every callee ends one below the value it was entered with.
  predicate Balanced(code: Code) {
    match code
    case Done => true
    case Seq(c, rest) => BalancedCmd(c) && Balanced(rest)
  }

  predicate BalancedCmd(c: Cmd) {
    match c
    case Call(body) => Balanced(body) && Delta(body) == -1
    case Dec => true
    case Steps(_, body, _) => Balanced(body)
  }

  function Max(a: int, b: int): int {
    if a < b then b else a
  }

  // The least counter value from which no decrement of the tree underflows.
  function Need(code: Code): (r: int)
    ensures r >= 0
  {
    match code
    case Done => 0
    case Seq(c, rest) => Max(NeedCmd(c), Need(rest) - DeltaCmd(c))
  }

  function NeedCmd(c: Cmd): (r: int)
    ensures r >= 0
  {
    match c
    case Call(body) => Max(0, Need(body) - 1)
    case Dec => 1
    case Steps(n, body, _) => Max(0, Need(body) - n)
  }

  // The highest value the counter rises to during the tree, over its starting value.
  function Top(code: Code): (r: int)
    ensures r >= 0
  {
    match code
    case Done => 0
    case Seq(c, rest) => Max(TopCmd(c), DeltaCmd(c) + Top(rest))
  }

  function TopCmd(c: Cmd): (r: int)
    ensures r >= 0
  {
    match c
    case Call(body) => 1 + Top(body)
    case Dec => 0
    case Steps(n, body, _) => n + Top(body)
  }

  predicate Fits(k: int, need: int, top: int) {
    need <= k && k + top < HALF
  }

  // ---------------------------------------------------------------- the primitives, exactly

  // Whatever the 32-bit sum does, the increment panics or stores the integer sum.
  lemma IncrementExact(k: Int32, n: Byte)
    ensures GetAndIncrement(Encode(k), n) ==
            if k < 0 then Panic(Negative)
            else if k + n >= HALF then Panic(Overflow)
            else Ok((Encode(k), Encode(k + n)))
  {
    hide Masked;
    DecodeEncode(k);
  }

  lemma DecrementExact(k: Int32)
    ensures Decrement(Encode(k)) == if k < 1 then Panic(Underflow) else Ok(Encode(k - 1))
  {
    hide Masked;
    DecodeEncode(k);
  }

  lemma ValidateExact(j: Int32, k: Int32)
    ensures Validate(Encode(j), Encode(k)) == if j == k then Ok(Encode(k)) else Panic(Unbalanced)
  {
    hide Masked, Eq;
    MaskedTwice(j);
    MaskedTwice(k);
    ComparisonsExact(Encode(j), Encode(k));
  }

  // Nothing runs on a counter whose two words disagree.
  lemma TamperedCounterStops(code: Code, ctr: Fih)
    requires !Valid(ctr) && code != Done
    ensures Exec(code, ctr) == Panic(Tampered)
  {
    assert ExecCmd(code.head, ctr) == Panic(Tampered);
  }

  // ---------------------------------------------------------------- exact behaviour of trees

  lemma {:induction false} MeasureBounds(code: Code)
    ensures -Need(code) <= Delta(code) <= Top(code)
  {
    if code.Seq? {
      MeasureBoundsCmd(code.head);
      MeasureBounds(code.tail);
    }
  }

  lemma {:induction false} MeasureBoundsCmd(c: Cmd)
    ensures -NeedCmd(c) <= DeltaCmd(c) <= TopCmd(c)
  {
    if c.Steps? {
      MeasureBounds(c.body);
    }
  }

  // From a counter value that fits, a tree runs to its net change if every callee in it is
  // balanced; if one is not, the check after a call stops the run.
  lemma {:induction false} FittingRun(code: Code, k: nat)
    requires Fits(k, Need(code), Top(code))
    ensures 0 <= k + Delta(code) < HALF
    ensures Exec(code, Encode(k)) ==
            if Balanced(code) then Ok(Encode(k + Delta(code))) else Panic(Unbalanced)
  {
    hide Encode, GetAndIncrement, Validate, Decrement;
    MeasureBounds(code);
    if code.Seq? {
      FittingRunCmd(code.head, k);
      if BalancedCmd(code.head) {
        FittingRun(code.tail, k + DeltaCmd(code.head));
      }
    }
  }

  lemma {:induction false} FittingRunCmd(c: Cmd, k: nat)
    requires Fits(k, NeedCmd(c), TopCmd(c))
    ensures 0 <= k + DeltaCmd(c) < HALF
    ensures ExecCmd(c, Encode(k)) ==
            if BalancedCmd(c) then Ok(Encode(k + DeltaCmd(c))) else Panic(Unbalanced)
  {
    hide Encode, Exec, ExecCmd;
    MeasureBoundsCmd(c);
    if c.Dec? {
      DecOutcome(k);
    } else if c.Call? {
      FittingRun(c.body, k + 1);
      CallOutcome(c.body, k);
    } else {
      FittingRun(c.body, k + c.count);
      StepsOutcome(c.count, c.body, c.reset, k);
    }
  }

  lemma DecOutcome(k: nat)
    requires 1 <= k < HALF
    ensures ExecCmd(Dec, Encode(k)) == Ok(Encode(k - 1))
  {
    hide Decrement, Encode;
    DecrementExact(k);
  }

  // A step block whose body runs as its measures say.
  lemma StepsOutcome(n: Byte, body: Code, reset: bool, k: nat)
    requires k + n < HALF && 0 <= k + n + Delta(body) < HALF
    requires Exec(body, Encode(k + n)) ==
             if Balanced(body) then Ok(Encode(k + n + Delta(body))) else Panic(Unbalanced)
    ensures 0 <= k + DeltaCmd(Steps(n, body, reset)) < HALF
    ensures ExecCmd(Steps(n, body, reset), Encode(k)) ==
            if Balanced(body) then Ok(Encode(k + DeltaCmd(Steps(n, body, reset)))) else Panic(Unbalanced)
  {
    hide GetAndIncrement, Exec, Masked;
    IncrementExact(k, n);
    assert Valid(Encode(k)) by {
      MaskedTwice(k);
    }
    hide Encode;
  }

  // A call whose body runs as its measures say.
  lemma CallOutcome(body: Code, k: nat)
    requires k + 1 < HALF && 0 <= k + 1 + Delta(body) < HALF
    requires Exec(body, Encode(k + 1)) ==
             if Balanced(body) then Ok(Encode(k + 1 + Delta(body))) else Panic(Unbalanced)
    ensures ExecCmd(Call(body), Encode(k)) == if BalancedCmd(Call(body)) then Ok(Encode(k)) else Panic(Unbalanced)
  {
    hide GetAndIncrement, Validate, Exec, Encode;
    IncrementExact(k, 1);
    if Balanced(body) {
      ValidateExact(k, k + 1 + Delta(body));
    }
  }

  // From any other value it panics.
  lemma {:induction false} UnfittingRun(code: Code, k: nat)
    requires k < HALF && !Fits(k, Need(code), Top(code))
    ensures Exec(code, Encode(k)).Panic?
  {
    hide Encode, GetAndIncrement, Validate, Decrement;
    if code.Seq? {
      if Fits(k, NeedCmd(code.head), TopCmd(code.head)) {
        FittingRunCmd(code.head, k);
        if BalancedCmd(code.head) {
          UnfittingRun(code.tail, k + DeltaCmd(code.head));
        }
      } else {
        UnfittingRunCmd(code.head, k);
      }
    }
  }

  lemma {:induction false} UnfittingRunCmd(c: Cmd, k: nat)
    requires k < HALF && !Fits(k, NeedCmd(c), TopCmd(c))
    ensures ExecCmd(c, Encode(k)).Panic?
  {
    hide Encode, GetAndIncrement, Validate, Decrement;
    match c {
      case Dec =>
        DecrementExact(k);
      case Call(body) =>
        IncrementExact(k, 1);
        if k + 1 < HALF {
          UnfittingRun(body, k + 1);
        }
      case Steps(n, body, reset) =>
        IncrementExact(k, n);
        if k + n < HALF {
          UnfittingRun(body, k + n);
        }
    }
  }

  // A tree runs without a panic exactly when every callee in it gives back the one count its call
  // took, no decrement finds the counter at zero, and the running sum stays below 2^31.
  lemma RunsCleanExactly(code: Code, k: nat)
    requires k < HALF
    ensures Exec(code, Encode(k)).Ok? <==> Balanced(code) && Fits(k, Need(code), Top(code))
    ensures Exec(code, Encode(k)).Ok? ==>
              0 <= k + Delta(code) < HALF && Exec(code, Encode(k)) == Ok(Encode(k + Delta(code)))
  {
    hide Encode, Exec;
    if Fits(k, Need(code), Top(code)) {
      FittingRun(code, k);
    } else {
      UnfittingRun(code, k);
    }
  }

  // ---------------------------------------------------------------- the documented discipline

  // Reads a function body against the discipline of the macros: `open` decrements are still owed.
  // Each callee owes exactly its FIH_RET, a step block owes its count, and an error reset drops
  // what is left of the block it ends. None if something decrements more than is owed.
  function Owed(code: Code, open: nat): Option<nat> {
    match code
    case Done => Some(open)
    case Seq(Dec, rest) => if open == 0 then None else Owed(rest, open - 1)
    case Seq(Call(body), rest) => if Owed(body, 1) == Some(0) then Owed(rest, open) else None
    case Seq(Steps(n, body, reset), rest) =>
      if !reset then
        match Owed(body, open + n)
        case None => None
        case Some(left) => Owed(rest, left)
      else if Owed(body, n) == None then None
      else Owed(rest, open)
  }

  lemma {:induction false} OwedMeasures(code: Code, open: nat)
    requires Owed(code, open).Some?
    ensures Balanced(code)
    ensures Need(code) <= open
    ensures Delta(code) == Owed(code, open).value - open
  {
    match code {
      case Done =>
      case Seq(Dec, rest) =>
        OwedMeasures(rest, open - 1);
      case Seq(Call(body), rest) =>
        OwedMeasures(body, 1);
        OwedMeasures(rest, open);
      case Seq(Steps(n, body, reset), rest) =>
        if reset {
          OwedMeasures(body, n);
          OwedMeasures(rest, open);
        } else {
          OwedMeasures(body, open + n);
          OwedMeasures(rest, Owed(body, open + n).value);
        }
    }
  }

  // A tree that keeps the discipline never panics and leaves the counter where it was, if and only
  // if the running sum stays below 2^31.
  lemma DisciplinedTreeIsClean(code: Code, k: nat)
    requires k < HALF && Owed(code, 0) == Some(0)
    ensures Exec(code, Encode(k)) == Ok(Encode(k)) <==> k + Top(code) < HALF
    ensures Exec(code, Encode(k)).Panic? <==> k + Top(code) >= HALF
  {
    hide Encode, Exec, Owed;
    OwedMeasures(code, 0);
    RunsCleanExactly(code, k);
  }

  // ---------------------------------------------------------------- what keeps the discipline

  function Then(code: Code, more: Code): Code {
    match code
    case Done => more
    case Seq(c, rest) => Seq(c, Then(rest, more))
  }

  function Decs(n: nat): Code {
    if n == 0 then Done else Seq(Dec, Decs(n - 1))
  }

  lemma {:induction false} OwedThen(code: Code, more: Code, open: nat)
    requires Owed(code, open).Some?
    ensures Owed(Then(code, more), open) == Owed(more, Owed(code, open).value)
  {
    match code {
      case Done =>
      case Seq(Dec, rest) =>
        OwedThen(rest, more, open - 1);
      case Seq(Call(body), rest) =>
        OwedThen(rest, more, open);
      case Seq(Steps(n, body, reset), rest) =>
        OwedThen(rest, more, if reset then open else Owed(body, open + n).value);
    }
  }

  lemma {:induction false} OwedMore(code: Code, open: nat, extra: nat)
    requires Owed(code, open).Some?
    ensures Owed(code, open + extra) == Some(Owed(code, open).value + extra)
  {
    match code {
      case Done =>
      case Seq(Dec, rest) =>
        OwedMore(rest, open - 1, extra);
      case Seq(Call(body), rest) =>
        OwedMore(rest, open, extra);
      case Seq(Steps(n, body, reset), rest) =>
        if reset {
          OwedMore(rest, open, extra);
        } else {
          OwedMore(body, open + n, extra);
          OwedMore(rest, Owed(body, open + n).value, extra);
        }
    }
  }

  lemma {:induction false} OwedDecs(n: nat, open: nat)
    ensures Owed(Decs(n), open) == if n <= open then Some(open - n) else None
  {
    if n > 0 && open > 0 {
      OwedDecs(n - 1, open - 1);
    }
  }

  // Bodies that keep the discipline may be put one after the other, wrapped as a callee that ends
  // with its FIH_RET, put inside a step block before its decrements, or inside one that an error
  // reset cuts short after any of its decrements.
  lemma DisciplineCloses(a: Code, b: Code, n: Byte, m: nat)
    requires Owed(a, 0) == Some(0) && Owed(b, 0) == Some(0)
    ensures Owed(Then(a, b), 0) == Some(0)
    ensures Owed(Seq(Call(Then(a, Seq(Dec, Done))), b), 0) == Some(0)
    ensures Owed(Seq(Steps(n, Then(a, Decs(n)), false), b), 0) == Some(0)
    ensures m <= n ==> Owed(Seq(Steps(n, Then(a, Decs(m)), true), b), 0) == Some(0)
  {
    OwedThen(a, b, 0);
    OwedMore(a, 0, 1);
    OwedThen(a, Seq(Dec, Done), 1);
    OwedMore(a, 0, n);
    OwedThen(a, Decs(n), n);
    OwedDecs(n, n);
    OwedThen(a, Decs(m), n);
    OwedDecs(m, n);
  }

  // A call, and a step block ended by an error reset, give the counter back as it was, or the run
  // has stopped.
  lemma GivesBack(c: Cmd, k: nat)
    requires k < HALF && (c.Call? || (c.Steps? && c.reset)) && ExecCmd(c, Encode(k)).Ok?
    ensures ExecCmd(c, Encode(k)) == Ok(Encode(k))
  {
    hide Encode, Exec, ExecCmd;
    if Fits(k, NeedCmd(c), TopCmd(c)) {
      FittingRunCmd(c, k);
    } else {
      UnfittingRunCmd(c, k);
    }
  }

  // ---------------------------------------------------------------- one decrement left out

  // Where in a tree a decrement stands.
  datatype Path = Here | Next(rest: Path) | Into(rest: Path)

  predicate IsDec(code: Code, p: Path) {
    code.Seq? &&
    match p
    case Here => code.head.Dec?
    case Next(q) => IsDec(code.tail, q)
    case Into(q) => !code.head.Dec? && IsDec(code.head.body, q)
  }

  function Drop(code: Code, p: Path): Code
    requires IsDec(code, p)
  {
    match p
    case Here => code.tail
    case Next(q) => Seq(code.head, Drop(code.tail, q))
    case Into(q) => Seq(code.head.(body := Drop(code.head.body, q)), code.tail)
  }

  // The missing decrement shows at the end of the code: neither a call nor an error reset hides it.
  predicate Surfaces(code: Code, p: Path)
    requires IsDec(code, p)
  {
    match p
    case Here => true
    case Next(q) => Surfaces(code.tail, q)
    case Into(q) => code.head.Steps? && !code.head.reset && Surfaces(code.head.body, q)
  }

  // Some call around the missing decrement has no error reset between the decrement and its end.
  predicate Caught(code: Code, p: Path)
    requires IsDec(code, p)
  {
    match p
    case Here => false
    case Next(q) => Caught(code.tail, q)
    case Into(q) => Caught(code.head.body, q) || (code.head.Call? && Surfaces(code.head.body, q))
  }

  lemma {:induction false} DropMeasures(code: Code, p: Path)
    requires IsDec(code, p)
    ensures Delta(Drop(code, p)) == Delta(code) + if Surfaces(code, p) then 1 else 0
    ensures Need(Drop(code, p)) <= Need(code)
    ensures Top(Drop(code, p)) <= Top(code) + 1
    ensures Balanced(code) ==> (Balanced(Drop(code, p)) <==> !Caught(code, p))
    ensures !(Surfaces(code, p) && Caught(code, p))
    decreases p
  {
    match p {
      case Here =>
      case Next(q) =>
        DropMeasures(code.tail, q);
      case Into(q) =>
        var body := code.head.body;
        DropMeasures(body, q);
        var head := code.head.(body := Drop(body, q));
        assert Drop(code, p) == Seq(head, code.tail);
        assert BalancedCmd(code.head) ==> (BalancedCmd(head) <==> !Caught(code, p));
    }
  }

  // Leaving one decrement out of a tree that runs clean stops the run if a call encloses the
  // decrement with no error reset in between, whatever else surrounds it.
  lemma OmittedDecrementStops(code: Code, p: Path, k: nat)
    requires IsDec(code, p) && Caught(code, p)
    requires k < HALF && Exec(code, Encode(k)).Ok?
    ensures Exec(Drop(code, p), Encode(k)).Panic?
  {
    hide Encode, Exec, Drop, Surfaces, Caught, IsDec;
    RunsCleanExactly(code, k);
    DropMeasures(code, p);
    RunsCleanExactly(Drop(code, p), k);
  }

  // With room for one more count it is the check after a call that stops it, and only then. An
  // omission that no call encloses leaves the counter one too high; one under an error reset
  // leaves no trace.
  lemma OmittedDecrementExactly(code: Code, p: Path, k: nat)
    requires IsDec(code, p)
    requires k < HALF && Exec(code, Encode(k)).Ok? && k + Top(code) + 1 < HALF
    ensures 0 <= k + Delta(code) < HALF - 1
    ensures Exec(Drop(code, p), Encode(k)) ==
            if Caught(code, p) then Panic(Unbalanced)
            else Ok(Encode(k + Delta(code) + if Surfaces(code, p) then 1 else 0))
  {
    hide Encode, Exec, Drop, Surfaces, Caught, IsDec;
    RunsCleanExactly(code, k);
    MeasureBounds(code);
    DropMeasures(code, p);
    FittingRun(Drop(code, p), k);
  }

  // The check that fires is the one of the nearest enclosing call: the callee itself still runs to
  // its end, with the counter one too high.
  lemma EnclosingCheckFires(body: Code, p: Path, k: nat)
    requires IsDec(body, p) && Surfaces(body, p)
    requires k < HALF && ExecCmd(Call(body), Encode(k)).Ok? && k + 1 + Top(body) + 1 < HALF
    ensures Exec(Drop(body, p), Encode(k + 1)) == Ok(Encode(k + 1))
    ensures ExecCmd(Call(Drop(body, p)), Encode(k)) == Panic(Unbalanced)
  {
    hide Encode, Exec, Drop, Surfaces, Caught, IsDec, GetAndIncrement, Validate;
    IncrementExact(k, 1);
    RunsCleanExactly(body, k + 1);
    ValidateExact(k, k + 1 + Delta(body));
    DropMeasures(body, p);
    OmittedDecrementExactly(body, p, k + 1);
    ValidateExact(k, k + 1);
  }

  // A callee that never ran, or that any fault cut down to actions with another net change, is
  // caught by its caller.
  lemma ReplacedCallee(body: Code, k: nat)
    requires Fits(k + 1, Need(body), Top(body))
    ensures ExecCmd(Call(body), Encode(k)).Ok? <==> Balanced(body) && Delta(body) == -1
    ensures ExecCmd(Call(Done), Encode(k)) == Panic(Unbalanced)
  {
    hide Encode, Exec;
    FittingRunCmd(Call(body), k);
    FittingRunCmd(Call(Done), k);
  }
}
