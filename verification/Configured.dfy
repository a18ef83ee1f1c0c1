/** From configuration blocks to a fleet for which the theorems hold. */
module Configured {
  import opened Payload
  import opened Protocol
  import Ttl
  import Setup
  import DirectiveOrder

  /** The instance runs with the keys and bounds of an accepted block. */
  ghost predicate RunsWith(inst: Instance, block: seq<Setup.Directive>) {
    && Setup.Parsed(block).Some?
    && inst.keyer == Setup.Parsed(block).value.keyer
    && inst.ttl == Ttl.TtlConfig(Setup.Parsed(block).value.success, Setup.Parsed(block).value.denial)
  }

  /** Instances configured by accepted blocks, whatever is repeated in them, form a valid fleet. */
  lemma ConfiguredFleet(f: Fleet, blocks: seq<seq<Setup.Directive>>)
    requires Faithful(f.codec) && |blocks| == |f.instances|
    requires forall i | 0 <= i < |blocks| :: RunsWith(f.instances[i], blocks[i])
    ensures ValidFleet(f)
  {
    forall i | 0 <= i < |f.instances| ensures Ttl.WellReadConfig(f.instances[i].ttl) {
      assert RunsWith(f.instances[i], blocks[i]);
      DirectiveOrder.AcceptedBounds(blocks[i], DirectiveOrder.SuccessKind);
      DirectiveOrder.AcceptedBounds(blocks[i], DirectiveOrder.DenialKind);
    }
  }
}
