/**
 What the whole tool chain promises about a source program, and that the two
 optimisation switches do not change it.
 */
module EndToEnd {
  import opened Words
  import opened Machine
  import opened Assembly
  import opened ByteSim
  import opened FuncCode
  import opened Emit
  import opened Nodes
  import opened Checks
  import opened Interp
  import opened Convention
  import opened Simulation
  import opened Toolchain
  import opened Literals
  import opened Acceptance
  import opened Loops

  /** The bytes the assembler makes of the compiled program. */
  function Binary(o: Options, p: Program): seq<u8> {
    match Assemble1(ProgramAsm(o, p))
    case Some(bytes) => bytes
    case None => []
  }

  /** What a source program must satisfy: the source-level checks, and a function for every
      call. Then the assembler takes what the compiler emits. */
  ghost predicate Buildable(o: Options, p: Program) {
    Compilable(o, p) && Complete(p)
  }

  lemma BinaryIs(o: Options, p: Program, f: Func)
    requires Buildable(o, p)
    ensures Assemble1(ProgramAsm(o, p)) == Some(Binary(o, p))
    ensures f in p ==> AddressOf(ProgramAsm(o, p), f.name).Some?
  {
    hide Compilable, Complete, ProgramAsm, Assemble1, Table, Lookup, GoodProgram, DefinedNames;
    CompiledAssembles(o, p);
    CompiledTable(o, p);
    CompilableIsEncodable(o, p);
    IsGood(o, p);
    if f in p {
      Defined(o, p, f, "");
      LookupIff(Table(ProgramAsm(o, p), START.At()).value, f.name);
    }
  }

  /** The machine stands at the entry of `f` with the assembled program at address 0,
      the arguments in r0.. and a return address on the stack. */
  ghost predicate AtEntry(o: Options, p: Program, f: Func, args: seq<u16>, s: State) {
    var bytes := Binary(o, p);
    && |bytes| < 0x1_0000 && bytes <= s.mem && |bytes| <= s.regs.sp < 0xffff
    && AddressOf(ProgramAsm(o, p), f.name) == Some(s.regs.ip as nat)
    && forall i :: 0 <= i < |args| && i < 4 ==> s.regs.g[i] == args[i]
  }

  /** The stack a call has: from the end of the code up to sp. */
  function Stack(o: Options, p: Program, s: State): int {
    s.regs.sp - |Binary(o, p)|
  }

  /**
   For every program that passes the source-level checks: whatever a call means to the
   interpreter within the stack there is, the machine computes from the assembled bytes,
   storing, passing, returning and testing the same values in the same order.
   */
  lemma ProgramRuns(o: Options, p: Program, f: Func, args: seq<u16>, s: State, fuel: nat)
    returns (n: nat, t: State)
    requires Buildable(o, p) && f in p && AtEntry(o, p, f, args, s)
    requires CallF(p, f.name, args, Stack(o, p, s), fuel).Some?
    ensures RunBytes(s, n) == Next(t) && ReturnsTo(s, t)
    ensures TraceBytes(ProgramMarks(o, p), s, n) == TraceF(p, f.name, args, Stack(o, p, s), fuel)
    ensures var rv := CallF(p, f.name, args, Stack(o, p, s), fuel).value; rv.Some? ==> t.regs.g[0] == rv.value
  {
    hide Compilable, Complete, Assemble1, RunBytes, ReturnsTo, CallF, Tame, AddressOf, ProgramAsm, TraceBytes,
         ProgramMarks,
         TraceF, Binary;
    BinaryIs(o, p, f);
    CompilableIsEncodable(o, p);
    n, t := CompiledProgramRuns(o, p, f, args, Binary(o, p), s, fuel);
  }

  /**
   Constant folding and literal comparison, on or off: two builds of the same program, each
   with its own code, addresses and stack, hold the same values in the same order in the
   stored register at every store, in the argument registers at every call, in r0 at every
   return and in the compare flag at every conditional jump, and return the same value.
   */
  lemma SwitchesAgree(o: Options, o': Options, p: Program, f: Func, args: seq<u16>,
                      s: State, s': State, fuel: nat, fuel': nat)
    returns (n: nat, t: State, n': nat, t': State)
    requires Buildable(o, p) && Buildable(o', p) && f in p
    requires AtEntry(o, p, f, args, s) && AtEntry(o', p, f, args, s')
    requires CallF(p, f.name, args, Stack(o, p, s), fuel).Some? && CallF(p, f.name, args, Stack(o', p, s'), fuel').Some?
    ensures RunBytes(s, n) == Next(t) && ReturnsTo(s, t) && RunBytes(s', n') == Next(t') && ReturnsTo(s', t')
    ensures TraceBytes(ProgramMarks(o, p), s, n) == TraceBytes(ProgramMarks(o', p), s', n')
    ensures CallF(p, f.name, args, Stack(o, p, s), fuel).value.Some? ==> t.regs.g[0] == t'.regs.g[0]
  {
    hide *;
    n, t := ProgramRuns(o, p, f, args, s, fuel);
    n', t' := ProgramRuns(o', p, f, args, s', fuel');
    AnswerUnique(p, f.name, args, Stack(o, p, s), fuel, Stack(o', p, s'), fuel');
  }
}
