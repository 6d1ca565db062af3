/**
 * The trap envelope: the value that describes one abnormal termination of
 * guest execution, with the evidence each kind of trap carries.
 *
 * `E` stands for the type-erased error object a user trap wraps and `B` for
 * a captured native backtrace; the model stores both without inspecting them.
 */
module Traps {

  import opened Wrappers
  import opened TrapCodes

  /** Exclusive upper bound of a `usize` on a 64-bit target. */
  const UsizeLimit: int := 0x1_0000_0000_0000_0000

  /** A native machine address, as held in a `usize`. */
  type Usize = x: int | 0 <= x < UsizeLimit

  /** A trap, with the evidence of its origin. */
  datatype Trap<E, B> =
      /** A trap raised by the embedder, wrapping its own error. */
    | User(error: E)
      /** A trap raised from generated code, at `pc`, possibly with a code. */
    | Wasm(pc: Usize, backtrace: B, signalTrap: Option<TrapCode>)
      /** A trap raised from a runtime library call. */
    | Lib(trapCode: TrapCode, backtrace: B)
      /** The runtime could not allocate enough memory. */
    | OOM(backtrace: B)

  /** The trap code a trap is attributed to, if any. */
  function CodeOf<E, B>(t: Trap<E, B>): (r: Option<TrapCode>)
    ensures r.Some? ==> t.Wasm? || t.Lib?
    ensures t.Lib? ==> r == Some(t.trapCode)
    ensures t.User? || t.OOM? ==> r == None
  {
    match t
    case User(_) => None
    case Wasm(_, _, signalTrap) => signalTrap
    case Lib(trapCode, _) => Some(trapCode)
    case OOM(_) => None
  }

  /** The backtrace a trap carries, if any. */
  function BacktraceOf<E, B>(t: Trap<E, B>): (r: Option<B>)
    ensures r.Some? <==> !t.User?
  {
    match t
    case User(_) => None
    case Wasm(_, backtrace, _) => Some(backtrace)
    case Lib(_, backtrace) => Some(backtrace)
    case OOM(backtrace) => Some(backtrace)
  }

  /**
   * `Trap::wasm`: a trap from generated code at `pc`, with the backtrace the
   * caller captured and the code the signal was attributed to, if any.
   */
  function MakeWasm<E, B>(pc: Usize, backtrace: B, signalTrap: Option<TrapCode>): (t: Trap<E, B>)
    ensures t.Wasm? && t.pc == pc && t.signalTrap == signalTrap
    ensures BacktraceOf(t) == Some(backtrace)
    ensures CodeOf(t) == signalTrap
  {
    Wasm(pc, backtrace, signalTrap)
  }

  /**
   * `Trap::lib`: a trap from a library call with code `trapCode`; `captured`
   * is the unresolved backtrace taken when the trap is built.
   */
  function MakeLib<E, B>(trapCode: TrapCode, captured: B): (t: Trap<E, B>)
    ensures t.Lib?
    ensures CodeOf(t) == Some(trapCode)
    ensures BacktraceOf(t) == Some(captured)
  {
    Lib(trapCode, captured)
  }

  /**
   * `Trap::oom`: an out-of-memory trap; `captured` is the unresolved
   * backtrace taken when the trap is built. It carries no trap code.
   */
  function MakeOom<E, B>(captured: B): (t: Trap<E, B>)
    ensures t.OOM?
    ensures CodeOf(t) == None
    ensures BacktraceOf(t) == Some(captured)
  {
    OOM(captured)
  }

  /** A wasm trap may leave the code out: a raw fault need not say why. */
  lemma WasmTrapWithoutCode<E, B>(pc: Usize, backtrace: B)
    ensures CodeOf(MakeWasm<E, B>(pc, backtrace, None)) == None
  {
  }

  /**
   * A heap fault at 0x1000: the trap echoes the pc and the code, and the
   * code's message and tag are those of the table.
   */
  lemma WasmHeapFaultExample<E, B>(backtrace: B)
    ensures var t := MakeWasm<E, B>(0x1000, backtrace, Some(HeapAccessOutOfBounds));
            t.pc == 0x1000 && CodeOf(t) == Some(HeapAccessOutOfBounds)
            && Message(CodeOf(t).value) == "out of bounds memory access"
            && Tag(CodeOf(t).value) == "heap_get_oob"
  {
  }

  /** A library division by zero reports that code and the tag `int_divz`. */
  lemma LibDivisionByZeroExample<E, B>(captured: B)
    ensures var t := MakeLib<E, B>(IntegerDivisionByZero, captured);
            CodeOf(t) == Some(IntegerDivisionByZero)
            && Tag(CodeOf(t).value) == "int_divz"
            && Parse(Tag(CodeOf(t).value)) == Some(IntegerDivisionByZero)
            && BacktraceOf(t) == Some(captured)
  {
  }

  /** Building a trap loses no evidence: equal traps come from equal arguments. */
  lemma ConstructorsInjective<E, B>(
    pc1: Usize, bt1: B, sig1: Option<TrapCode>, pc2: Usize, bt2: B, sig2: Option<TrapCode>,
    c1: TrapCode, c2: TrapCode)
    ensures MakeWasm<E, B>(pc1, bt1, sig1) == MakeWasm<E, B>(pc2, bt2, sig2)
            <==> pc1 == pc2 && bt1 == bt2 && sig1 == sig2
    ensures MakeLib<E, B>(c1, bt1) == MakeLib<E, B>(c2, bt2) <==> c1 == c2 && bt1 == bt2
    ensures MakeOom<E, B>(bt1) == MakeOom<E, B>(bt2) <==> bt1 == bt2
    ensures MakeLib<E, B>(c1, bt1) != MakeOom<E, B>(bt2)
  {
  }
}
