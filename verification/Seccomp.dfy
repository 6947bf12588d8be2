/** The seccomp filter of enforcement.c: the program its macros expand to, and what the kernel makes of it. */
module Seccomp {

  datatype Action = Allow | KillProcess | Errno(code: nat)

  const EPERM := 1

  /** Classic BPF, as far as the filter uses it. Jump offsets count from the next instruction. */
  datatype Insn = LoadAbs(offset: nat) | Jeq(k: nat, jt: nat, jf: nat) | Ret(action: Action)

  /** struct seccomp_data: the syscall number at offset 0, the architecture at offset 4. */
  datatype Data = Data(nr: nat, arch: nat)

  const NR_OFFSET := 0
  const ARCH_OFFSET := 4

  /** SC_ALLOW */
  function AllowOne(nr: nat): seq<Insn> { [Jeq(nr, 0, 1), Ret(Allow)] }

  function AllowAll(nrs: seq<nat>): seq<Insn> { if nrs == [] then [] else AllowOne(nrs[0]) + AllowAll(nrs[1..]) }

  function Filter(arch: nat, nrs: seq<nat>): seq<Insn> {
    [LoadAbs(ARCH_OFFSET), Jeq(arch, 1, 0), Ret(KillProcess), LoadAbs(NR_OFFSET)] + AllowAll(nrs) + [Ret(Errno(EPERM))]
  }

  // ----- the interpreter ------------------------------------------------

  /** A program that reads a bad word or runs off its end has no verdict. */
  datatype Verdict = Verdict(action: Action) | Stuck

  function Word(d: Data, offset: nat): nat { if offset == ARCH_OFFSET then d.arch else d.nr }

  function Execute(p: seq<Insn>, pc: nat, acc: nat, d: Data): Verdict
    decreases |p| - pc
  {
    if pc >= |p| then Stuck
    else match p[pc]
      case LoadAbs(offset) =>
        if offset == NR_OFFSET || offset == ARCH_OFFSET then Execute(p, pc + 1, Word(d, offset), d) else Stuck
      case Jeq(k, jt, jf) => Execute(p, pc + 1 + (if acc == k then jt else jf), acc, d)
      case Ret(action) => Verdict(action)
  }

  const BPF_MAXINSNS := 4096

  /** The check the kernel makes when the filter is installed: it is not too long, jumps stay inside, and the last
      instruction returns. */
  predicate Accepted(p: seq<Insn>) {
    && 0 < |p| <= BPF_MAXINSNS && p[|p| - 1].Ret?
    && forall i :: 0 <= i < |p| ==>
         match p[i]
         case Jeq(_, jt, jf) => i + 1 + jt < |p| && i + 1 + jf < |p|
         case LoadAbs(offset) => offset == NR_OFFSET || offset == ARCH_OFFSET
         case Ret(_) => true
  }

  // ----- what the filter decides ----------------------------------------

  lemma {:induction false} AllowAllShape(nrs: seq<nat>)
    ensures |AllowAll(nrs)| == 2 * |nrs|
    ensures forall i :: 0 <= i < |nrs| ==>
      AllowAll(nrs)[2 * i] == Jeq(nrs[i], 0, 1) && AllowAll(nrs)[2 * i + 1] == Ret(Allow)
  {
    if nrs != [] {
      var tail, p := nrs[1..], AllowAll(nrs);
      AllowAllShape(tail);
      forall i | 0 <= i < |nrs| ensures p[2 * i] == Jeq(nrs[i], 0, 1) && p[2 * i + 1] == Ret(Allow) {
        if i > 0 { assert p[2 * i] == AllowAll(tail)[2 * (i - 1)] && p[2 * i + 1] == AllowAll(tail)[2 * (i - 1) + 1]; }
      }
    }
  }

  /** The pairs from the i-th on, inside a program that holds them at pc 4 and ends in EPERM. */
  predicate Laid(p: seq<Insn>, nrs: seq<nat>) {
    && |p| == 5 + 2 * |nrs| && p[4 + 2 * |nrs|] == Ret(Errno(EPERM))
    && forall i :: 0 <= i < |nrs| ==> p[4 + 2 * i] == Jeq(nrs[i], 0, 1) && p[4 + 2 * i + 1] == Ret(Allow)
  }

  lemma FilterIsLaid(arch: nat, nrs: seq<nat>)
    ensures Laid(Filter(arch, nrs), nrs)
  {
    AllowAllShape(nrs);
    var p, a := Filter(arch, nrs), AllowAll(nrs);
    forall i | 0 <= i < |nrs| ensures p[4 + 2 * i] == Jeq(nrs[i], 0, 1) && p[4 + 2 * i + 1] == Ret(Allow) {
      assert p[4 + 2 * i] == a[2 * i] && p[4 + 2 * i + 1] == a[2 * i + 1];
    }
  }

  /** With the number loaded, the pairs are tried in order and the first equal one allows. */
  lemma {:induction false} PairsDecide(p: seq<Insn>, nrs: seq<nat>, i: nat, d: Data)
    requires Laid(p, nrs) && i <= |nrs|
    ensures Execute(p, 4 + 2 * i, d.nr, d) == Verdict(if d.nr in nrs[i..] then Allow else Errno(EPERM))
    decreases |nrs| - i
  {
    if i < |nrs| {
      assert nrs[i..] == [nrs[i]] + nrs[i + 1..];
      assert p[4 + 2 * i] == Jeq(nrs[i], 0, 1);
      if d.nr == nrs[i] {
        assert p[4 + 2 * i + 1] == Ret(Allow);
      } else {
        PairsDecide(p, nrs, i + 1, d);
      }
    }
  }

  /** For every list of numbers: kill exactly on a foreign architecture, otherwise allow exactly the listed
      numbers and refuse the rest with EPERM. */
  lemma FilterDecides(arch: nat, nrs: seq<nat>, d: Data)
    ensures Execute(Filter(arch, nrs), 0, 0, d) ==
      Verdict(if d.arch != arch then KillProcess else if d.nr in nrs then Allow else Errno(EPERM))
  {
    var p := Filter(arch, nrs);
    FilterIsLaid(arch, nrs);
    PairsDecide(p, nrs, 0, d);
    assert nrs[0..] == nrs;
    assert p[0] == LoadAbs(ARCH_OFFSET) && p[1] == Jeq(arch, 1, 0) && p[2] == Ret(KillProcess) &&
      p[3] == LoadAbs(NR_OFFSET);
    assert Execute(p, 0, 0, d) == Execute(p, 1, d.arch, d);
    if d.arch == arch {
      assert Execute(p, 1, d.arch, d) == Execute(p, 3, d.arch, d);
    } else {
      assert Execute(p, 1, d.arch, d) == Execute(p, 2, d.arch, d);
    }
  }

  /** The kernel accepts the filter, whatever the list, as long as it has at most 2045 entries. */
  lemma FilterIsAccepted(arch: nat, nrs: seq<nat>)
    ensures Accepted(Filter(arch, nrs)) <==> 5 + 2 * |nrs| <= BPF_MAXINSNS
  {
    var p := Filter(arch, nrs);
    FilterIsLaid(arch, nrs);
    forall i | 4 <= i < |p| - 1 ensures p[i] == (if i % 2 == 0 then Jeq(nrs[(i - 4) / 2], 0, 1) else Ret(Allow)) {
      var j := (i - 4) / 2;
      assert p[4 + 2 * j] == Jeq(nrs[j], 0, 1) && p[4 + 2 * j + 1] == Ret(Allow);
    }
  }

  /** Order and repetition in the list do not matter. */
  lemma OnlyTheSetMatters(arch: nat, a: seq<nat>, b: seq<nat>, d: Data)
    requires forall n :: n in a <==> n in b
    ensures Execute(Filter(arch, a), 0, 0, d) == Execute(Filter(arch, b), 0, 0, d)
  {
    FilterDecides(arch, a, d);
    FilterDecides(arch, b, d);
  }
}
