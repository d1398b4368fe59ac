/** The signature gate of the updater: OpenPGP reports one validity flag per
    signature found in the detached signature file, and the update is
    accepted only when there is at least one and all of them are valid. */
module Signature {

  /** `validities.every(valid => valid)`, scanning from the left as
      `Array.prototype.every` does; true of the empty list. */
  function Every(validities: seq<bool>): (r: bool)
    ensures r <==> forall i :: 0 <= i < |validities| ==> validities[i]
    decreases |validities|
  {
    if validities == [] then true
    else validities[0] && Every(validities[1..])
  }

  /** The negation of the rejecting condition
      `signatures.length === 0 || !signatures.every(sig => sig.valid)`:
      fail-closed, so an empty list is a failure, not a vacuous success. */
  function SignatureCheckPasses(validities: seq<bool>): (ok: bool)
    ensures ok <==> |validities| > 0 && forall i :: 0 <= i < |validities| ==> validities[i]
    ensures validities == [] ==> !ok
  {
    !(|validities| == 0 || !Every(validities))
  }

  /** One invalid signature anywhere in the list rejects it, whatever the
      other signatures are. */
  lemma OneInvalidRejects(before: seq<bool>, after: seq<bool>)
    ensures !SignatureCheckPasses(before + [false] + after)
  {
    assert (before + [false] + after)[|before|] == false;
  }
}
