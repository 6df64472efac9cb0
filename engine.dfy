/** The LZMA coder the wrapper drives (NCompress::NLZMA::CEncoder and
    CDecoder). Its algorithm is not part of this model: a Coder is an
    arbitrary oracle that decides whether a configuration is accepted and,
    for each request, which calls it makes on the two streams and what
    HRESULT Code returns. Every property of the entry points holds for
    every Coder. */
module Engine {
  import opened Win
  import InMemory
  import OutMemory

  /** The encoder settings compress2 passes to SetCoderProperties. */
  datatype EncoderProfile = EncoderProfile(
    dictionarySize: int,
    posStateBits: int,
    litContextBits: int,
    litPosBits: int,
    algorithm: int,
    numFastBytes: int,
    matchFinder: string,
    endMarker: bool)

  /** The arguments of SetDecoderPropertiesRaw. */
  datatype DecoderProps = DecoderProps(lc: int, lp: int, pb: int, dictionarySize: int)

  datatype Config = EncodeWith(profile: EncoderProfile) | DecodeWith(props: DecoderProps)

  /** One Code call: the configuration in force, the bytes behind the input
      stream, and the expected output size (None for the null pointer
      compress2 passes). */
  datatype Request = Request(config: Config, input: seq<bv8>, outSize: Option<UInt64>)

  /** A call the engine makes on one of the two streams. */
  datatype Step =
    | Read(size: UInt32)
    | ReadPart(size: UInt32)
    | SeekIn(delta: Int64, origin: UInt32)
    | GetSize
    | Write(bytes: Chunk)
    | WritePart(bytes: Chunk)
    | SeekOut(delta: Int64, origin: UInt32)
    | SetSize(newSize: Int64)

  /** What Code does for one request: its stream calls, then its result. */
  datatype Plan = Plan(steps: seq<Step>, result: HResult)

  datatype Coder = Coder(
    acceptsEncoder: EncoderProfile -> bool,
    acceptsDecoder: DecoderProps -> bool,
    plan: Request -> Plan)

  /** The input-stream call a step makes, if it makes one that can move
      the cursor. */
  function InOpOf(step: Step): (ops: seq<InMemory.Op>)
    ensures |ops| <= 1
  {
    match step
    case Read(n) => [InMemory.ReadOp(n)]
    case ReadPart(n) => [InMemory.ReadOp(n)]
    case SeekIn(d, o) => [InMemory.SeekOp(d, o)]
    case _ => []
  }

  /** The output-stream call a step makes, if any. */
  function OutOpOf(step: Step): (ops: seq<OutMemory.Op>)
    ensures |ops| <= 1
  {
    match step
    case Write(b) => [OutMemory.WriteOp(b)]
    case WritePart(b) => [OutMemory.WriteOp(b)]
    case SeekOut(d, o) => [OutMemory.SeekOp(d, o)]
    case SetSize(n) => [OutMemory.SetSizeOp(n)]
    case _ => []
  }

  /** The calls of `steps` that change the input stream, in order. */
  function InOps(steps: seq<Step>): (ops: seq<InMemory.Op>)
    ensures |ops| <= |steps|
    decreases |steps|
  {
    if steps == [] then [] else InOps(steps[..|steps| - 1]) + InOpOf(steps[|steps| - 1])
  }

  /** The calls of `steps` that the output stream sees, in order. */
  function OutOps(steps: seq<Step>): (ops: seq<OutMemory.Op>)
    ensures |ops| <= |steps|
    decreases |steps|
  {
    if steps == [] then [] else OutOps(steps[..|steps| - 1]) + OutOpOf(steps[|steps| - 1])
  }

  /** The output stream once `plan` has run over a fresh stream on `dest`:
      its bytes never outgrow the capacity and m_size stays within it. */
  function FinalOut(plan: Plan, dest: seq<bv8>): (o: OutMemory.OutState)
    requires |dest| < TWO_64
    ensures OutMemory.ValidState(o) && |o.buf| == |dest|
  {
    OutMemory.Run(OutMemory.Initial(dest), OutOps(plan.steps))
  }

  /** Whatever the engine writes, the reported length m_size is the
      furthest the cursor reached at the end of a write, or 0. */
  lemma FinalSizeIsHighWater(plan: Plan, dest: seq<bv8>)
    requires |dest| < TWO_64
    ensures var ops := OutOps(plan.steps);
            var init := OutMemory.Initial(dest);
            && FinalOut(plan, dest).size <= |dest|
            && (forall i :: 0 <= i < |ops| && ops[i].WriteOp? ==>
                  OutMemory.After(init, ops, i).offset <= FinalOut(plan, dest).size)
            && (FinalOut(plan, dest).size == 0 ||
                exists i :: 0 <= i < |ops| && ops[i].WriteOp? &&
                  OutMemory.After(init, ops, i).offset == FinalOut(plan, dest).size)
  {
    OutMemory.HighWaterBound(OutMemory.Initial(dest), OutOps(plan.steps));
    OutMemory.HighWaterAttained(OutMemory.Initial(dest), OutOps(plan.steps));
  }

  lemma InOpsStep(in0: InMemory.InState, steps: seq<Step>, i: nat)
    requires InMemory.ValidState(in0) && i < |steps|
    ensures InMemory.Run(in0, InOps(steps[..i + 1])) == InMemory.Run(InMemory.Run(in0, InOps(steps[..i])), InOpOf(steps[i]))
  {
    assert steps[..i + 1][..i] == steps[..i];
    InMemory.RunAppend(in0, InOps(steps[..i]), InOpOf(steps[i]));
  }

  lemma OutOpsStep(out0: OutMemory.OutState, steps: seq<Step>, i: nat)
    requires OutMemory.ValidState(out0) && i < |steps|
    ensures OutMemory.Run(out0, OutOps(steps[..i + 1])) == OutMemory.Run(OutMemory.Run(out0, OutOps(steps[..i])), OutOpOf(steps[i]))
  {
    assert steps[..i + 1][..i] == steps[..i];
    OutMemory.RunAppend(out0, OutOps(steps[..i]), OutOpOf(steps[i]));
  }

  /** The engine's call on the input stream, if `step` is one. */
  method PerformIn(step: Step, ins: InMemory.InStream)
    requires ins.Valid()
    modifies ins`offset
    ensures ins.Valid()
    ensures ins.State() == InMemory.Run(old(ins.State()), InOpOf(step))
  {
    match step {
      case Read(n) =>
        var buf := new bv8[n];
        var _, _ := ins.Read(buf, n);
      case ReadPart(n) =>
        var buf := new bv8[n];
        var _, _ := ins.ReadPart(buf, n);
      case SeekIn(d, o) =>
        var _, _ := ins.Seek(d, o);
      case GetSize =>
        var _, _ := ins.GetSize();
      case _ =>
    }
  }

  /** The engine's call on the output stream, if `step` is one. */
  method PerformOut(step: Step, outs: OutMemory.OutStream)
    requires outs.Valid()
    modifies outs`size, outs`offset, outs.data
    ensures outs.Valid()
    ensures outs.State() == OutMemory.Run(old(outs.State()), OutOpOf(step))
    ensures outs.data[outs.maxsize..] == old(outs.data[outs.maxsize..])
  {
    match step {
      case Write(b) =>
        var _, _ := outs.Write(b);
      case WritePart(b) =>
        var _, _ := outs.WritePart(b);
      case SeekOut(d, o) =>
        var _, _ := outs.Seek(d, o);
      case SetSize(n) =>
        var _ := outs.SetSize(n);
      case _ =>
    }
  }

  /** ICompressCoder::Code: performs the plan's stream calls on the real
      stream objects, in order, and returns the plan's result. */
  method Code(coder: Coder, req: Request, ins: InMemory.InStream, outs: OutMemory.OutStream) returns (hr: HResult)
    requires ins.Valid() && outs.Valid()
    modifies ins`offset, outs`size, outs`offset, outs.data
    ensures ins.Valid() && outs.Valid()
    ensures ins.State() == InMemory.Run(old(ins.State()), InOps(coder.plan(req).steps))
    ensures outs.State() == OutMemory.Run(old(outs.State()), OutOps(coder.plan(req).steps))
    ensures outs.data[outs.maxsize..] == old(outs.data[outs.maxsize..])
    ensures hr == coder.plan(req).result
  {
    var plan := coder.plan(req);
    ghost var in0 := ins.State();
    ghost var out0 := outs.State();
    var i := 0;
    while i < |plan.steps|
      invariant 0 <= i <= |plan.steps|
      invariant ins.Valid() && outs.Valid()
      invariant ins.State() == InMemory.Run(in0, InOps(plan.steps[..i]))
      invariant outs.State() == OutMemory.Run(out0, OutOps(plan.steps[..i]))
      invariant outs.data[outs.maxsize..] == old(outs.data[outs.maxsize..])
    {
      InOpsStep(in0, plan.steps, i);
      OutOpsStep(out0, plan.steps, i);
      PerformIn(plan.steps[i], ins);
      PerformOut(plan.steps[i], outs);
      i := i + 1;
    }
    assert plan.steps[..i] == plan.steps;
    hr := plan.result;
  }
}
