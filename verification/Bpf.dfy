/**
 Classic BPF as the kernel runs it over a seccomp_data record: the four kinds of
 instruction that the filter compiler emits, and an interpreter for them.
 */
module Bpf {

  import opened Bytes
  import opened Wrappers

  /** a & k is not 0. */
  predicate AnyBit(a: word, k: word) {
    a > 0 && k > 0 && ((a % 2 == 1 && k % 2 == 1) || AnyBit(a / 2, k / 2))
  }

  datatype SeccompData = SeccompData(nr: word, arch: word, ip: dword, args: seq<dword>)

  type syscall = d: SeccompData | |d.args| == 6 witness SeccompData(0, 0, 0, [0, 0, 0, 0, 0, 0])

  datatype Jump = JEQ | JGT | JSET | JLT | JNE

  /** Instr: BPF_LD|BPF_W|BPF_ABS, BPF_JMP|op|BPF_K and BPF_RET|BPF_K. */
  datatype Instr =
    | Load(offset: word)
    | JumpIf(op: Jump, k: word, jt: byte, jf: byte)
    | Ret(value: word)

  /** The 32-bit word at a byte offset of seccomp_data, on a little-endian machine. */
  function LoadWord(d: syscall, offset: word): Option<word> {
    if offset == 0 then Some(d.nr)
    else if offset == 4 then Some(d.arch)
    else if offset == 8 then Some(Low(d.ip))
    else if offset == 12 then Some(High(d.ip))
    else if 16 <= offset < 64 && offset % 8 == 0 then Some(Low(d.args[(offset - 16) / 8]))
    else if 16 <= offset < 64 && offset % 8 == 4 then Some(High(d.args[(offset - 16) / 8]))
    else None
  }

  /** JLT and JNE are not classic BPF: the kernel refuses a program that holds them. */
  function JumpTaken(op: Jump, a: word, k: word): Option<bool> {
    match op
    case JEQ => Some(a == k)
    case JGT => Some(a > k)
    case JSET => Some(AnyBit(a, k))
    case JLT => None
    case JNE => None
  }

  /**
   The value that a program returns from pc on; None when it leaves its own code, loads from
   outside the record or holds an instruction that is not classic BPF. Jumps only go forward.
   */
  function Run(prog: seq<Instr>, d: syscall, pc: nat, acc: word): Option<word>
    decreases |prog| - pc
  {
    if pc >= |prog| then None
    else
      match prog[pc]
      case Load(offset) =>
        (match LoadWord(d, offset)
         case None => None
         case Some(w) => Run(prog, d, pc + 1, w))
      case JumpIf(op, k, jt, jf) =>
        (match JumpTaken(op, acc, k)
         case None => None
         case Some(taken) => Run(prog, d, pc + 1 + (if taken then jt else jf), acc))
      case Ret(v) => Some(v)
  }
}
