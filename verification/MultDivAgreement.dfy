/** The three configurable multiplier implementations cannot be told apart by their results. */
module MultDivAgreement {
  import opened Bits
  import opened MultDivSpec
  import Slow = MultDivSlow
  import SlowProofs = MultDivSlowProofs
  import Fast = MultDivFast
  import FastProofs = MultDivFastProofs

  /** Any run of the slow unit and any run of either fast unit on the same request show the
      same result whenever each says its result is valid. */
  lemma ImplementationsAgree(
      req: Request,
      s: Slow.Regs, slowIns: seq<Slow.Inputs>, j: nat,
      f: Fast.Regs, fastIns: seq<Fast.Inputs>, k: nat)
    requires Slow.WidthsOk(s) && s.md.MD_IDLE? && SlowProofs.OneOperation(s, slowIns, req) && j < |slowIns|
    requires Fast.WidthsOk(f) && FastProofs.AtRest(f) && FastProofs.OneOperation(f, fastIns, req)
    requires k < |fastIns| && FastProofs.Enabled(fastIns[k])
    requires Slow.Valid(SlowProofs.StateAfter(s, slowIns, j), slowIns[j])
    requires Fast.Valid(FastProofs.StateAfter(f, fastIns, k), fastIns[k])
    ensures Slow.Output(SlowProofs.StateAfter(s, slowIns, j), slowIns[j])
         == Fast.Output(FastProofs.StateAfter(f, fastIns, k), fastIns[k])
  {
    SlowProofs.MeetsSpecification(s, slowIns, req, j);
    FastProofs.MeetsSpecification(f, fastIns, req, k);
  }
}
