/** The numeric values that flow between the encoder, the scorer and the
    delta-score extractor. */
module Tensors {

  /** A one-hot encoded window: one row of four values per base. */
  type Window = seq<seq<int>>

  /** The three output channels of the scorer at one position. */
  datatype Probs = Probs(neither: real, acceptor: real, donor: real)

  /** A probability track: one triple per position. */
  type Track = seq<Probs>

  const Acceptor: nat := 1
  const Donor: nat := 2

  /** Channel c of a triple, as y[..., c] indexes it. */
  function Chan(p: Probs, c: nat): real
  {
    if c == 0 then p.neither else if c == 1 then p.acceptor else p.donor
  }

  /** The number of positions the scorer crops on each side of its input. */
  const Flank: nat := 5000

  /** The scorer's shape contract: an input window of length L yields a track
      of length L - 2 * 5000 (the context on each side is consumed). */
  ghost predicate ModelShape(model: Window -> Track)
  {
    forall x: Window {:trigger model(x)} :: |x| >= 2 * Flank ==> |model(x)| == |x| - 2 * Flank
  }
}
