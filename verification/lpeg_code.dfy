/** The instruction set of the pattern matching machine (lib/lpeg.c:79-207).

    A pattern is a sequence of instructions without its final `IEnd`.  As in the
    original, jump offsets are relative to the instruction that carries them.
    The four checks (`IAny`, `IChar`, `ISet`, `IZSet`) and their four test forms
    share one `CheckKind`; the set payload is part of the instruction. */
module LpegCode {
  import Common

  type Byte = Common.Byte

  type Charset = set<Byte>

  const MAXOFF: nat := 15        // largest offset a capture instruction can hold
  const UCHAR_MAX: nat := 255
  const MAXBACK: nat := 400      // size of the backtrack stack
  const CCLOSE: int := 0         // the kind of a closing capture

  /** The kinds of captures a pattern can ask for. */
  type PattKind = k: int | k != CCLOSE witness 1

  predicate IsByte(b: int) {
    0 <= b < 256
  }

  function AllBytes(): (r: Charset)
    ensures forall b: Byte :: b in r
  {
    set b: Byte | 0 <= b < 256 && IsByte(b)
  }

  /** What a check looks for.  `nul` tells the checked set opcode (`IZSet`) from the plain one. */
  datatype CheckKind = KAny(n: nat) | KChar(c: Byte) | KSet(cs: Charset, nul: bool)

  datatype CapForm = Full | Empty | Open | Close

  datatype Op =
    | Check(k: CheckKind)
    | Test(k: CheckKind)
    | Span(cs: Charset, nul: bool)
    | Choice(aux: nat)
    | Jmp
    | Call
    | OpenCall(rule: nat)
    | Ret
    | Commit
    | PartialCommit
    | BackCommit
    | FailTwice
    | Fail(pred: bool)
    | Cap(form: CapForm, kind: int, idx: int, n: nat)

  datatype Instr = Instr(op: Op, off: int)

  type Code = seq<Instr>

  /** One entry of the capture list. */
  datatype Capture = Capture(s: int, idx: int, kind: int, siz: nat)

  /** The properties of an opcode (lib/lpeg.c:93-132). */
  predicate IsJmp(op: Op) {
    op.Test? || op.Choice? || op.Jmp? || op.Call? || op.Commit? || op.PartialCommit? || op.BackCommit?
  }

  predicate IsNoFail(op: Op) {
    op.Test? || op.Span? || op.Jmp? || op.Cap?
  }

  predicate IsMovable(op: Op) {
    op.Cap? && op.form != Full
  }

  predicate IsMovableCap(op: Op) {
    IsMovable(op) && op.n < MAXOFF
  }

  /** The number of bytes a successful check consumes (`op_step`). */
  function StepOf(k: CheckKind): nat {
    if k.KAny? then k.n else 1
  }

  predicate NoFail(c: Code) {
    forall i :: 0 <= i < |c| ==> IsNoFail(c[i].op)
  }

  /** A head-fail pattern can fail only in its first instruction, which is a check (`isheadfail`). */
  predicate IsHeadFail(c: Code) {
    |c| > 0 && c[0].op.Check? && NoFail(c[1..])
  }

  /** What is known about the bytes that may start a pattern (`tocharset`). */
  datatype CharTag = NoInfo | IsCharset(cs: Charset) | ValidStarts(cs: Charset)

  function FillCharset(k: CheckKind): Charset {
    match k
    case KAny(_) => AllBytes()
    case KChar(c) => {c}
    case KSet(cs, _) => cs
  }

  function ToCharset(c: Code): CharTag {
    if |c| == 0 || !c[0].op.Check? then NoInfo
    else if |c| == 1 && StepOf(c[0].op.k) == 1 then IsCharset(FillCharset(c[0].op.k))
    else ValidStarts(FillCharset(c[0].op.k))
  }

  predicate Exclusive(t1: CharTag, t2: CharTag) {
    !t1.NoInfo? && !t2.NoInfo? && t1.cs !! t2.cs
  }

  /** A set check with the opcode `correctset` picks. */
  function SetCheck(cs: Charset): CheckKind {
    KSet(cs, 0 in cs)
  }
}
