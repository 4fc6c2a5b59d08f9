/**
 From bytes to a run: what the limits of the module format add to the soundness
 of the verifier.
 */
module Loading {
  import opened Common
  import opened Values
  import opened Trust
  import opened Chunks
  import opened Verifier
  import opened Machine
  import ModuleFormat

  // A chunk within the format's limits has too few functions for a negative
  // `StartChild` index to be accepted: no run of it ends in `BadFunction`, and
  // every child it starts takes no arguments.
  lemma {:induction false} FittingChunksRun(
    chunk: Chunk, trust: TrustLevel, fn: U32, args: seq<Value>, hosts: seq<Host>)
    requires ModuleFormat.ChunkFits(chunk) && Refusal(chunk, trust).None? && fn < |chunk.functions|
    ensures Start(chunk, fn, args).Ok?
    ensures RunOk(chunk, Start(chunk, fn, args).value, hosts)
    ensures
      var r := Run(chunk, Start(chunk, fn, args).value, hosts);
      && r != Trap(BadFunction)
      && (r.Continue? ==> forall e | e in r.effects && e.StartChild? ::
            e.fn < |chunk.functions| && chunk.functions[e.fn].arity == 0)
  {
    VerifierIsSound(chunk, trust, fn, args, hosts);
    var start := Start(chunk, fn, args).value;
    var r := Run(chunk, start, hosts);
    if r.Continue? {
      forall e | e in r.effects && e.StartChild?
        ensures e.fn < |chunk.functions| && chunk.functions[e.fn].arity == 0
      {
        var k, at :| 0 <= k < |hosts| && AsksAt(chunk, start, hosts, k, at, e);
      }
    } else {
      var k, at :| 0 <= k < |hosts| && StopsAt(chunk, start, hosts, k, at, r);
    }
  }

  // So does every module that was decoded, from whatever bytes and at whatever
  // trust level.
  lemma {:induction false} DecodedModulesRun(
    bytes: Bytes, decoded: TrustLevel, trust: TrustLevel, fn: U32, args: seq<Value>, hosts: seq<Host>)
    requires ModuleFormat.DecodeWith(bytes, decoded).Ok?
    requires
      var chunk := ModuleFormat.DecodeWith(bytes, decoded).value;
      Refusal(chunk, trust).None? && fn < |chunk.functions|
    ensures
      var chunk := ModuleFormat.DecodeWith(bytes, decoded).value;
      && Start(chunk, fn, args).Ok?
      && RunOk(chunk, Start(chunk, fn, args).value, hosts)
      && Run(chunk, Start(chunk, fn, args).value, hosts) != Trap(BadFunction)
  {
    ModuleFormat.DecodeIsCanonical(bytes, decoded);
    FittingChunksRun(ModuleFormat.DecodeWith(bytes, decoded).value, trust, fn, args, hosts);
  }
}
