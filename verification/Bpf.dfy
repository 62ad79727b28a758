/**
 The classic BPF filter of `capture.py`: compiled for any list of ethertypes, and run by the
 interpreter beside it. A frame passes exactly when its ethertype is asked for, with or
 without one 802.1Q tag.
 */
module Bpf {
  import opened Octets
  import opened Ethernet

  const LDH_ABS: int := 0x28
  const JEQ_K: int := 0x15
  const RET_K: int := 0x06
  const ACCEPTED: nat := 0x40000

  datatype Instruction = Instruction(code: int, jt: nat, jf: nat, k: nat)

  type Program = seq<Instruction>

  datatype Outcome = Returned(octets: nat) | OffTheEnd | Unsupported(code: int)

  // --- the interpreter ---------------------------------------------------------------------

  // Jumps only go forward, so every program ends.
  function Exec(program: Program, frame: Bytes, pc: nat, acc: nat): Outcome
    decreases |program| - pc
  {
    if pc >= |program| then OffTheEnd
    else
      var i := program[pc];
      if i.code == LDH_ABS then
        if i.k + 2 > |frame| then Returned(0) else Exec(program, frame, pc + 1, U16(frame, i.k))
      else if i.code == JEQ_K then Exec(program, frame, pc + 1 + (if acc == i.k then i.jt else i.jf), acc)
      else if i.code == RET_K then Returned(i.k)
      else Unsupported(i.code)
  }

  // `run_filter`.
  method RunFilter(program: Program, frame: Bytes) returns (r: Outcome)
    ensures r == Exec(program, frame, 0, 0)
  {
    var pc, acc := 0, 0;
    while pc < |program|
      invariant Exec(program, frame, 0, 0) == Exec(program, frame, pc, acc)
      decreases |program| - pc
    {
      var i := program[pc];
      if i.code == LDH_ABS {
        if i.k + 2 > |frame| {
          return Returned(0);
        }
        acc := U16(frame, i.k);
        pc := pc + 1;
      } else if i.code == JEQ_K {
        pc := pc + 1 + (if acc == i.k then i.jt else i.jf);
      } else if i.code == RET_K {
        return Returned(i.k);
      } else {
        return Unsupported(i.code);
      }
    }
    return OffTheEnd;
  }

  // --- the compiler ------------------------------------------------------------------------

  // Tests for each ethertype from instruction `at` on, that jump to instruction `to`.
  function Tests(types: seq<nat>, at: nat, to: nat): (r: Program)
    requires at + |types| <= to
    ensures |r| == |types|
  {
    seq(|types|, i requires 0 <= i < |types| => Instruction(JEQ_K, to - (at + i) - 1, 0, types[i]))
  }

  function Compile(types: seq<nat>): (r: Program)
    ensures |r| == 2 * |types| + 5
  {
    var n := |types|;
    var accept, reject := 2 * n + 4, 2 * n + 3;
    [Instruction(LDH_ABS, 0, 0, 12)] + Tests(types, 1, accept)
    + [Instruction(JEQ_K, 0, reject - (n + 1) - 1, ETHERTYPE_VLAN), Instruction(LDH_ABS, 0, 0, 16)]
    + Tests(types, n + 3, accept)
    + [Instruction(RET_K, 0, 0, 0), Instruction(RET_K, 0, 0, ACCEPTED)]
  }

  // `ethertype_filter`, instruction by instruction.
  method EthertypeFilter(types: seq<nat>) returns (program: Program)
    ensures program == Compile(types)
  {
    var n := |types|;
    var accept := 2 * n + 4;
    program := [Instruction(LDH_ABS, 0, 0, 12)];
    for i := 0 to n
      invariant program == [Instruction(LDH_ABS, 0, 0, 12)] + Tests(types, 1, accept)[..i]
    {
      program := program + [Instruction(JEQ_K, accept - (1 + i) - 1, 0, types[i])];
    }
    var reject := 2 * n + 3;
    program := program + [Instruction(JEQ_K, 0, reject - (n + 1) - 1, ETHERTYPE_VLAN)];
    program := program + [Instruction(LDH_ABS, 0, 0, 16)];
    ghost var head := program;
    for i := 0 to n
      invariant program == head + Tests(types, n + 3, accept)[..i]
    {
      program := program + [Instruction(JEQ_K, accept - (n + 3 + i) - 1, 0, types[i])];
    }
    program := program + [Instruction(RET_K, 0, 0, 0)];
    program := program + [Instruction(RET_K, 0, 0, ACCEPTED)];
  }

  // The program for GOOSE and Sampled Values, as the kernel is given it: load the type, jump to
  // the end for either, give up unless it is that of a tag, load the type behind the tag, again.
  lemma ProgramForBoth()
    ensures Compile([0x88B8, 0x88BA])
         == [Instruction(0x28, 0, 0, 12), Instruction(0x15, 6, 0, 0x88B8), Instruction(0x15, 5, 0, 0x88BA),
             Instruction(0x15, 0, 3, 0x8100), Instruction(0x28, 0, 0, 16), Instruction(0x15, 2, 0, 0x88B8),
             Instruction(0x15, 1, 0, 0x88BA), Instruction(0x06, 0, 0, 0), Instruction(0x06, 0, 0, 0x40000)]
  {
    var types: seq<nat> := [0x88B8, 0x88BA];
    assert Tests(types, 1, 8) == [Instruction(0x15, 6, 0, 0x88B8), Instruction(0x15, 5, 0, 0x88BA)];
    assert Tests(types, 5, 8) == [Instruction(0x15, 2, 0, 0x88B8), Instruction(0x15, 1, 0, 0x88BA)];
  }

  // --- correctness -------------------------------------------------------------------------

  // What the filter is for.
  predicate Wanted(types: seq<nat>, frame: Bytes) {
    && |frame| >= 14
    && (U16(frame, 12) in types
        || (U16(frame, 12) == ETHERTYPE_VLAN && |frame| >= 18 && U16(frame, 16) in types))
  }

  // Tests that stand in a program jump to `to` when the type is one of theirs, and are fallen
  // through otherwise.
  lemma {:induction false} TestsRun(program: Program, frame: Bytes, acc: nat, types: seq<nat>, at: nat, to: nat, i: nat)
    requires at + |types| <= to < |program| && i <= |types|
    requires forall j :: 0 <= j < |types| ==> program[at + j] == Instruction(JEQ_K, to - (at + j) - 1, 0, types[j])
    ensures Exec(program, frame, at + i, acc)
         == if acc in types[i..] then Exec(program, frame, to, acc) else Exec(program, frame, at + |types|, acc)
    decreases |types| - i
  {
    if i < |types| {
      assert program[at + i] == Instruction(JEQ_K, to - (at + i) - 1, 0, types[i]);
      assert types[i..] == [types[i]] + types[i + 1..];
      TestsRun(program, frame, acc, types, at, to, i + 1);
    }
  }

  lemma Layout(types: seq<nat>)
    ensures var n := |types|;
            var p := Compile(types);
            && p[0] == Instruction(LDH_ABS, 0, 0, 12)
            && (forall j :: 0 <= j < n ==> p[1 + j] == Instruction(JEQ_K, 2 * n + 4 - (1 + j) - 1, 0, types[j]))
            && p[n + 1] == Instruction(JEQ_K, 0, n + 1, ETHERTYPE_VLAN) && p[n + 2] == Instruction(LDH_ABS, 0, 0, 16)
            && (forall j :: 0 <= j < n ==> p[n + 3 + j] == Instruction(JEQ_K, 2 * n + 4 - (n + 3 + j) - 1, 0, types[j]))
            && p[2 * n + 3] == Instruction(RET_K, 0, 0, 0) && p[2 * n + 4] == Instruction(RET_K, 0, 0, ACCEPTED)
  {
    hide Compile;
    LayoutFirst(types);
    LayoutSecond(types);
    LayoutRest(types);
  }

  lemma LayoutFirst(types: seq<nat>)
    ensures var n := |types|;
            var p := Compile(types);
            forall j :: 0 <= j < n ==> p[1 + j] == Instruction(JEQ_K, 2 * n + 4 - (1 + j) - 1, 0, types[j])
  {
    var n := |types|;
    forall j | 0 <= j < n
      ensures Compile(types)[1 + j] == Instruction(JEQ_K, 2 * n + 4 - (1 + j) - 1, 0, types[j])
    {
      assert Compile(types)[1 + j] == Tests(types, 1, 2 * n + 4)[j];
    }
  }

  lemma LayoutSecond(types: seq<nat>)
    ensures var n := |types|;
            var p := Compile(types);
            forall j :: 0 <= j < n ==> p[n + 3 + j] == Instruction(JEQ_K, 2 * n + 4 - (n + 3 + j) - 1, 0, types[j])
  {
    var n := |types|;
    forall j | 0 <= j < n
      ensures Compile(types)[n + 3 + j] == Instruction(JEQ_K, 2 * n + 4 - (n + 3 + j) - 1, 0, types[j])
    {
      assert Compile(types)[n + 3 + j] == Tests(types, n + 3, 2 * n + 4)[j];
    }
  }

  lemma LayoutRest(types: seq<nat>)
    ensures var n := |types|;
            var p := Compile(types);
            && p[0] == Instruction(LDH_ABS, 0, 0, 12)
            && p[n + 1] == Instruction(JEQ_K, 0, n + 1, ETHERTYPE_VLAN) && p[n + 2] == Instruction(LDH_ABS, 0, 0, 16)
            && p[2 * n + 3] == Instruction(RET_K, 0, 0, 0) && p[2 * n + 4] == Instruction(RET_K, 0, 0, ACCEPTED)
  {
    hide Tests;
  }

  // For every list of ethertypes and every frame, the program ends inside itself, and accepts
  // the frame exactly when it is wanted.
  lemma CompiledIsCorrect(types: seq<nat>, frame: Bytes)
    ensures Exec(Compile(types), frame, 0, 0) == Returned(if Wanted(types, frame) then ACCEPTED else 0)
  {
    Layout(types);
    var p, n := Compile(types), |types|;
    hide Compile;
    if |frame| >= 14 {
      var first := U16(frame, 12);
      assert Exec(p, frame, 0, 0) == Exec(p, frame, 1, first);
      TestsRun(p, frame, first, types, 1, 2 * n + 4, 0);
      assert types[0..] == types;
      if first !in types && first == ETHERTYPE_VLAN {
        assert Exec(p, frame, n + 1, first) == Exec(p, frame, n + 2, first);
        if |frame| >= 18 {
          TestsRun(p, frame, U16(frame, 16), types, n + 3, 2 * n + 4, 0);
        }
      }
    }
  }

  // Whatever `parse_frame` would accept passes the filter.
  lemma ParsedFramesPass(types: seq<nat>, raw: Bytes, ethertypes: set<nat>)
    requires ParseFrame(raw, ethertypes).Some? && forall t :: t in ethertypes ==> t in types
    ensures Exec(Compile(types), raw, 0, 0) == Returned(ACCEPTED)
  {
    hide Compile, Exec;
    CompiledIsCorrect(types, raw);
  }

  // A jump the kernel can hold is an octet: the program is one it can load exactly when there
  // are at most 126 ethertypes.
  lemma JumpsFit(types: seq<nat>)
    ensures (forall i :: 0 <= i < |Compile(types)| ==> Compile(types)[i].jt < 256 && Compile(types)[i].jf < 256)
       <==> |types| <= 126
  {
    var p, n := Compile(types), |types|;
    FarthestJump(types);
    if n <= 126 {
      forall i | 0 <= i < |p|
        ensures p[i].jt < 256 && p[i].jf < 256
      {
        JumpAt(types, i);
      }
    }
  }

  lemma FarthestJump(types: seq<nat>)
    ensures types != [] ==> Compile(types)[1].jt == 2 * |types| + 2
  {
  }

  lemma JumpAt(types: seq<nat>, i: nat)
    requires i < |Compile(types)|
    ensures Compile(types)[i].jt <= 2 * |types| + 2 && Compile(types)[i].jf <= |types| + 1
  {
    var p, n := Compile(types), |types|;
    if 1 <= i <= n {
      assert p[i] == Tests(types, 1, 2 * n + 4)[i - 1];
    } else if n + 3 <= i < 2 * n + 3 {
      assert p[i] == Tests(types, n + 3, 2 * n + 4)[i - n - 3];
    }
  }
}
